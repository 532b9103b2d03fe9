/** The conditions of StoreImmutability are the exact ones: where one of them fails, a run from
    the empty archive changes the bytes of a finalized capture, whatever its name. */
module StoreExactness {
  import opened Append
  import opened Store
  import opened StoreImmutability
  import opened StoreLinks
  import opened StoreReassembly
  import opened StoreWitness

  /** A file that changes its length with no new link is not assembled before or after. */
  lemma NotBothAssembled(s: State, t: State, F: Path)
    requires IsFinalized(s, F) && F in t.names && |File(t, F)| != |File(s, F)| && t.binder == s.binder
    requires forall u :: u in s.ups ==> u in t.ups && t.ups[u].job == s.ups[u].job
    ensures !Assembled(s, F) || !Assembled(t, F)
  {
    hide Provenance;
  }

  lemma LengthIsFixed(d: Discipline, run: seq<Action>, after: seq<Action>, F: Path)
    requires Continues(d, run, after, F)
    requires
      var s, t := Exec(EmptyArchive, run), Exec(Exec(EmptyArchive, run), after);
      && F in t.names && |File(t, F)| != |File(s, F)| && t.binder == s.binder
      && forall u :: u in s.ups ==> u in t.ups && t.ups[u].job == s.ups[u].job
    ensures !Reassembly(d, F)
  {
    hide Assembled;
    var s := Exec(EmptyArchive, run);
    ExecAppend(d, EmptyArchive, run, after);
    NotBothAssembled(s, Exec(s, after), F);
    assert Valid(d, EmptyArchive, run + after) && Valid(d, EmptyArchive, run);
  }

  /** An upload still holds the inode `F` is bound to, and writes to it. */
  lemma LateAppend(d: Discipline, run: seq<Action>, u: nat, F: Path)
    requires Valid(d, EmptyArchive, run)
    requires var s := Exec(EmptyArchive, run);
      && IsFinalized(s, F) && u in s.ups && s.ups[u].pc.Copy? && s.ups[u].job.mode == Plain
      && s.ups[u].handle == s.names[F] && s.ups[u].job.output == [X] && s.ups[u].pos == 0
    ensures !Immutable(d, F) && !Reassembly(d, F)
  {
    var s := Exec(EmptyArchive, run);
    var after, t := Do(d, s, [], Step(u, true, 1));
    assert t == DoWrite(s, u, 1);
    assert |File(DoWrite(s, u, 1), F)| == |File(s, F)| + 1;
    assert Continues(d, run, after, F);
    LengthIsFixed(d, run, after, F);
  }

  /** Two plaintext uploads to `F` that both opened the staging file: the first links it and the
      second goes on appending. */
  lemma OverlapChangesBytes(d: Discipline, F: Path)
    requires CaptureName(F) && !d.oneWriter
    ensures !Immutable(d, F) && !Reassembly(d, F)
  {
    KinOfStaging(F);
    var run, s := OpenPlain(d, EmptyArchive, [], 0, PlainJob(F, 0, []));
    run, s := OpenPlain(d, EmptyArchive, run, 1, PlainJob(F, 0, [X]));
    run, s := LinkStaged(d, EmptyArchive, run, 0);
    LateAppend(d, run, 1, F);
  }

  /** A capture named like the staging file of `F`, linked and then left by a crash: its own
      staging name still shares the inode that becomes `F`, so a later upload resumes into it. */
  lemma StagingNameChangesBytes(d: Discipline, F: Path)
    requires CaptureName(F) && !d.plainNames
    ensures !Immutable(d, F) && !Reassembly(d, F)
  {
    var S := StagingPath(F);
    SameDirectory(F);
    CaptureJobs(F);
    hide WfJob, CaptureName, StagingPath, IsStagingName, Apply, Enabled, Respects, Valid;
    var run, s := CrashedStagingName(d, F);
    run, s := FinalizedAlias(d, run, F);
    IdleAllows(d, s, 2, PlainJob(S, 0, [X]));
    run, s := OpenPlain(d, EmptyArchive, run, 2, PlainJob(S, 0, [X]));
    LateAppend(d, run, 2, F);
  }

  /** `p` is unbound, `q` and `r` are one empty file. */
  ghost predicate Aliased(s: State, p: Path, q: Path, r: Path) {
    && Flat(s, |p|) && p !in s.names && q in s.names && r in s.names
    && s.names[q] == s.names[r] && File(s, q) == []
  }

  lemma CaptureJobs(F: Path)
    requires CaptureName(F)
    ensures forall start, input :: WfJob(PlainJob(F, start, input)) && WfJob(PlainJob(StagingPath(F), start, input))
    ensures F != [] && !IsStagingName(F)
  {
    KinOfStaging(F);
  }

  lemma CrashedStagingName(d: Discipline, F: Path) returns (run: seq<Action>, s: State)
    requires CaptureName(F) && !d.plainNames
    ensures Valid(d, EmptyArchive, run) && Exec(EmptyArchive, run) == s
    ensures Aliased(s, F, StagingPath(F), StagingPath(StagingPath(F))) && Idle(s, 1)
  {
    var S := StagingPath(F);
    CaptureJobs(F);
    SameDirectory(F);
    hide WfJob, CaptureName, StagingPath, IsStagingName, Apply, Enabled, Respects, Valid, Aliased;
    IdleAllows(d, EmptyArchive, 0, PlainJob(S, 0, []));
    run, s := LinkEmpty(d, EmptyArchive, [], 0, PlainJob(S, 0, []));
    AliasAfterCrash(s, F);
    run, s := CrashUpload(d, EmptyArchive, run, 0);
  }

  lemma AliasAfterCrash(s: State, F: Path)
    requires F != [] && EmptyLinked(EmptyArchive, s, 0, PlainJob(StagingPath(F), 0, []))
    ensures Aliased(Goto(s, 0, Crashed), F, StagingPath(F), StagingPath(StagingPath(F)))
    ensures Idle(Goto(s, 0, Crashed), 1)
  {
    SameDirectory(F);
    hide StagingPath;
  }

  lemma FinalizedAlias(d: Discipline, before: seq<Action>, F: Path) returns (run: seq<Action>, s: State)
    requires CaptureName(F) && Valid(d, EmptyArchive, before)
    requires Aliased(Exec(EmptyArchive, before), F, StagingPath(F), StagingPath(StagingPath(F)))
    requires Idle(Exec(EmptyArchive, before), 1)
    ensures Valid(d, EmptyArchive, run) && Exec(EmptyArchive, run) == s
    ensures Aliased(s, StagingPath(F), F, StagingPath(StagingPath(F))) && Idle(s, 2) && F in s.binder
  {
    CaptureJobs(F);
    SameDirectory(F);
    hide WfJob, CaptureName, StagingPath, IsStagingName, Apply, Enabled, Respects, Valid;
    var s0, job := Exec(EmptyArchive, before), PlainJob(F, 0, []);
    IdleAllows(d, s0, 1, job);
    run, s := LinkEmpty(d, EmptyArchive, before, 1, job);
    AliasAfterUnlink(s0, s, F);
    run, s := UnlinkStaging(d, EmptyArchive, run, 1);
  }

  lemma AliasAfterUnlink(s: State, t: State, F: Path)
    requires F != [] && Aliased(s, F, StagingPath(F), StagingPath(StagingPath(F))) && Idle(s, 1)
    requires EmptyLinked(s, t, 1, PlainJob(F, 0, []))
    ensures
      var t' := Goto(RemoveFile(t, StagingPath(F)), 1, Done(Stored(0)));
      Aliased(t', StagingPath(F), F, StagingPath(StagingPath(F))) && Idle(t', 2) && F in t'.binder
  {
    SameDirectory(F);
    hide StagingPath;
  }

  /** `F` and its staging name are bound to one non-empty inode. */
  ghost predicate HardLinked(s: State, F: Path) {
    && Flat(s, |F|) && IsFinalized(s, F) && StagingPath(F) in s.names
    && s.names[StagingPath(F)] == s.names[F] && File(s, F) != []
  }

  /** An encrypted upload is past its check although `F` is bound to the inode its staging name
      is bound to: creating the staging file empties `F`. */
  lemma LateTruncate(d: Discipline, run: seq<Action>, u: nat, job: Job, s: State)
    requires Valid(d, EmptyArchive, run)
    requires Exec(EmptyArchive, run) == At(s, u, job, MkDirs) && job.mode == Encrypted && WfJob(job)
    requires HardLinked(s, job.final)
    ensures !GrowsOnly(d, job.final) && !Immutable(d, job.final) && !Reassembly(d, job.final)
  {
    hide WfJob;
    var after, t := MakeAndOpen(d, At(s, u, job, MkDirs), [], u, job, s);
    assert File(t, job.final) == [];
    assert Continues(d, run, after, job.final);
    LengthIsFixed(d, run, after, job.final);
  }

  /** An encrypted upload of one byte, from its check on, up to the link. */
  lemma LinkEncrypted(d: Discipline, run: seq<Action>, u: nat, F: Path, s: State)
    returns (longer: seq<Action>, t: State)
    requires Valid(d, EmptyArchive, run) && F != []
    requires Exec(EmptyArchive, run) == At(s, u, EncryptedJob(F, [X]), MkDirs)
    requires s.names == map[] && s.dirs == {}
    ensures Valid(d, EmptyArchive, longer) && Exec(EmptyArchive, longer) == t
    ensures EncryptedLinked(s, t, u, F)
  {
    var job := EncryptedJob(F, [X]);
    SameDirectory(F);
    hide StagingPath, At, Valid, Apply;
    longer, t := MakeAndOpen(d, EmptyArchive, run, u, job, s);
    EncryptedEffect(s, t, u, F);
    hide StagingOpened, EncryptedLinked;
    longer, t := CopyOne(d, EmptyArchive, longer, u);
    longer, t := LinkStaged(d, EmptyArchive, longer, u);
  }

  ghost predicate EncryptedLinked(s: State, t: State, u: nat, F: Path) {
    HardLinked(t, F) && u in t.ups && t.ups == s.ups[u := t.ups[u]] && t.ups[u].pc.Unlink?
  }

  function CopiedOne(s: State, u: nat): State
    requires u in s.ups && |s.ups[u].job.output| == 1
  {
    var x := s.ups[u];
    s.(inodes := s.inodes[x.handle := [Cell(x.job.output[0], u, 0)]], ups := s.ups[u := x.(pos := 1)])
  }

  lemma EncryptedEffect(s: State, t: State, u: nat, F: Path)
    requires s.names == map[] && s.dirs == {} && F != []
    requires StagingOpened(s, t, u, EncryptedJob(F, [X]))
    ensures u in t.ups && t.ups[u] == Upload(EncryptedJob(F, [X]), Copy, s.next, 0, false)
    ensures Content(t, t.ups[u].handle) == []
    ensures
      var t1 := CopiedOne(t, u);
      StagingPath(F) in t1.names && !Exists(t1, F) && EncryptedLinked(s, Linked(t1, u), u, F)
  {
    SameDirectory(F);
    hide StagingPath;
    var t1 := CopiedOne(t, u);
    assert t1.names == map[StagingPath(F) := s.next] && |Content(t1, s.next)| == 1;
    assert t1.ups == s.ups[u := t1.ups[u]] && t1.ups[u].job.final == F && Flat(t1, |F|);
    hide StagingOpened, CopiedOne, Content, Flat;
    LinkedEffect(s, t1, u, F);
  }

  lemma LinkedEffect(s: State, t: State, u: nat, F: Path)
    requires u in t.ups && t.ups == s.ups[u := t.ups[u]] && t.ups[u].job.final == F && Flat(t, |F|)
    requires t.names == map[StagingPath(F) := s.next] && |Content(t, s.next)| == 1 && F != StagingPath(F)
    ensures EncryptedLinked(s, Linked(t, u), u, F)
  {
    hide StagingPath;
  }

  lemma CopyOne(d: Discipline, o: State, run: seq<Action>, u: nat) returns (longer: seq<Action>, t: State)
    requires Valid(d, o, run)
    requires var s := Exec(o, run);
      && u in s.ups && s.ups[u].pc.Copy? && s.ups[u].pos == 0 && |s.ups[u].job.output| == 1
      && Content(s, s.ups[u].handle) == []
    ensures Valid(d, o, longer) && Exec(o, longer) == t
    ensures t == CopiedOne(Exec(o, run), u)
  {
    var s := Exec(o, run);
    longer, t := Do(d, o, run, Step(u, true, 1));
    assert Content(t, s.ups[u].handle) == [Cell(s.ups[u].job.output[0], u, 0)];
  }

  /** Two encrypted uploads past the check: the second truncates the staging file the first
      just linked. */
  lemma EncryptedOverlapTruncates(d: Discipline, F: Path)
    requires CaptureName(F) && IsAgeName(F) && !d.oneWriter && !d.plaintextOnly
    ensures !GrowsOnly(d, F) && !Immutable(d, F) && !Reassembly(d, F)
  {
    hide CaptureName, IsAgeName, IsStagingName, IsTestPath, EncryptedLinked;
    var j0, j1 := EncryptedJob(F, [X]), EncryptedJob(F, []);
    EncryptedJobs(F);
    var s1 := At(EmptyArchive, 1, j1, MkDirs);
    var run, s := PassCheck(d, EmptyArchive, [], 0, j0, true);
    run, s := PassCheck(d, EmptyArchive, run, 1, j1, true);
    BothChecked(EmptyArchive, j0, j1);
    hide At, HardLinked;
    run, s := LinkEncrypted(d, run, 0, F, s1);
    StillThere(s1, s, F, j1);
    LateTruncate(d, run, 1, j1, s);
  }

  lemma StillThere(s1: State, s: State, F: Path, j1: Job)
    requires s1 == At(EmptyArchive, 1, j1, MkDirs) && EncryptedLinked(s1, s, 0, F)
    ensures s == At(s, 1, j1, MkDirs) && HardLinked(s, F)
  {
    assert s.ups[1] == NewUpload(j1).(pc := MkDirs);
  }

  lemma BothChecked(s: State, j0: Job, j1: Job)
    ensures At(At(s, 0, j0, MkDirs), 1, j1, MkDirs) == At(At(s, 1, j1, MkDirs), 0, j0, MkDirs)
  {
    var u0, u1 := NewUpload(j0).(pc := MkDirs), NewUpload(j1).(pc := MkDirs);
    assert s.ups[0 := u0][1 := u1] == s.ups[1 := u1][0 := u0];
  }

  lemma EncryptedJobs(F: Path)
    requires CaptureName(F) && IsAgeName(F)
    ensures WfJob(EncryptedJob(F, [X])) && WfJob(EncryptedJob(F, [])) && F != [] && !IsStagingName(F)
  {
  }

  /** A crash between link and unlink, then an encrypted upload whose failing existence check
      counts as absent: the finalized file is truncated. */
  lemma FailedCheckTruncates(d: Discipline, F: Path)
    requires CaptureName(F) && IsAgeName(F) && !d.checksWork && !d.plaintextOnly
    ensures !GrowsOnly(d, F) && !Immutable(d, F) && !Reassembly(d, F)
  {
    hide CaptureName, IsAgeName, IsStagingName, IsTestPath;
    var j0, j1 := EncryptedJob(F, [X]), EncryptedJob(F, []);
    EncryptedJobs(F);
    var run, s := PassCheck(d, EmptyArchive, [], 0, j0, true);
    run, s := LinkEncrypted(d, run, 0, F, EmptyArchive);
    run, s := CrashUpload(d, EmptyArchive, run, 0);
    var s1 := s;
    run, s := PassCheck(d, EmptyArchive, run, 1, j1, false);
    LateTruncate(d, run, 1, j1, s1);
  }

  /** The sweep removes the staging file between the size check and the open: the resumed upload
      starts an empty file, and its input lands at offset 0 instead of its start offset. */
  lemma SweepRaceLosesBytes(d: Discipline, F: Path)
    requires CaptureName(F) && !d.quietSweep
    ensures !Reassembly(d, F)
  {
    CaptureJobs(F);
    SameDirectory(F);
    hide WfJob, CaptureName, StagingPath, IsStagingName, Valid, Enabled, Respects, Apply, At;
    var j1 := PlainJob(F, 1, []);
    var run, s := CrashedByte(d, F);
    IdleAllows(d, s, 1, j1);
    var s0 := s;
    run, s := PassCheck(d, EmptyArchive, run, 1, j1, true);
    run, s := PassSize(d, EmptyArchive, run, 1, j1, s0);
    run, s := SweepStaging(d, run, F, s0, j1);
    run, s := MakeAndOpen(d, EmptyArchive, run, 1, j1, RemoveFile(s0, StagingPath(F)));
    RacedLink(RemoveFile(s0, StagingPath(F)), s, F, j1);
    run, s := LinkStaged(d, EmptyArchive, run, 1);
  }

  lemma SweepStaging(d: Discipline, before: seq<Action>, F: Path, s0: State, j: Job)
    returns (run: seq<Action>, s: State)
    requires !d.quietSweep && Valid(d, EmptyArchive, before) && Exec(EmptyArchive, before) == At(s0, 1, j, MkDirs)
    requires StagingPath(F) in s0.names
    ensures Valid(d, EmptyArchive, run) && Exec(EmptyArchive, run) == s
    ensures s == At(RemoveFile(s0, StagingPath(F)), 1, j, MkDirs)
  {
    run, s := Do(d, EmptyArchive, before, SweepFile(StagingPath(F)));
  }

  /** An upload of one byte, crashed before the link. */
  lemma CrashedByte(d: Discipline, F: Path) returns (run: seq<Action>, s: State)
    requires CaptureName(F)
    ensures Valid(d, EmptyArchive, run) && Exec(EmptyArchive, run) == s
    ensures Idle(s, 1) && Flat(s, |F|) && s.names.Keys == {StagingPath(F)} && |File(s, StagingPath(F))| == 1
  {
    CaptureJobs(F);
    SameDirectory(F);
    hide WfJob, CaptureName, StagingPath, IsStagingName, Valid, Enabled, Respects, Apply, At;
    var j := PlainJob(F, 0, [X]);
    IdleAllows(d, EmptyArchive, 0, j);
    run, s := OpenPlain(d, EmptyArchive, [], 0, j);
    StagedByte(s, F);
    run, s := CopyOne(d, EmptyArchive, run, 0);
    run, s := CrashUpload(d, EmptyArchive, run, 0);
  }

  lemma StagedByte(s: State, F: Path)
    requires F != [] && StagingOpened(EmptyArchive, s, 0, PlainJob(F, 0, [X]))
    ensures s.ups.Keys == {0} && s.ups[0] == Upload(PlainJob(F, 0, [X]), Copy, 0, 0, false) && Content(s, 0) == []
    ensures
      var t := Goto(CopiedOne(s, 0), 0, Crashed);
      Idle(t, 1) && Flat(t, |F|) && t.names.Keys == {StagingPath(F)} && |File(t, StagingPath(F))| == 1
  {
  }

  lemma RacedLink(s: State, t: State, F: Path, j: Job)
    requires F != [] && j == PlainJob(F, 1, []) && s.names == map[]
    requires StagingOpened(s, t, 1, j)
    ensures 1 in t.ups && t.ups[1] == Upload(j, Copy, s.next, 0, false) && StagingPath(F) in t.names && !Exists(t, F)
    ensures IsFinalized(Linked(t, 1), F) && !Assembled(Linked(t, 1), F)
  {
    SameDirectory(F);
    hide StagingPath;
    assert File(Linked(t, 1), F) == [];
  }

  // ------------------------------------------------------------------ captures named like staging files

  /** A capture named like the staging file of `G`, finalized, empty, and nothing else. */
  ghost predicate StagedAlone(s: State, G: Path) {
    var F := StagingPath(G);
    Flat(s, |G|) && s.names.Keys == {F} && IsFinalized(s, F) && File(s, F) == [] && Idle(s, 1)
    && 0 in s.ups && s.ups[0].job == PlainJob(F, 0, []) && s.ups[0].pc == Done(Stored(0))
  }

  lemma StagedJobs(G: Path)
    requires FinalName(G)
    ensures forall start, input :: WfJob(PlainJob(G, start, input)) && WfJob(PlainJob(StagingPath(G), start, input))
    ensures FinalName(StagingPath(G)) && IsStagingName(StagingPath(G)) && G != []
  {
    KinOfStaging(G);
  }

  lemma StoreStaged(d: Discipline, G: Path) returns (run: seq<Action>, s: State)
    requires FinalName(G) && !d.plainNames
    ensures Valid(d, EmptyArchive, run) && Exec(EmptyArchive, run) == s && Unswept(run)
    ensures StagedAlone(s, G)
  {
    var F := StagingPath(G);
    StagedJobs(G);
    SameDirectory(G);
    SameDirectory(F);
    hide WfJob, StagingPath, IsStagingName, Apply, Enabled, Respects, Valid, StagedAlone;
    IdleAllows(d, EmptyArchive, 0, PlainJob(F, 0, []));
    run, s := LinkEmpty(d, EmptyArchive, [], 0, PlainJob(F, 0, []));
    AloneAfterUnlink(s, G);
    run, s := UnlinkStaging(d, EmptyArchive, run, 0);
  }

  lemma AloneAfterUnlink(s: State, G: Path)
    requires FinalName(G) && EmptyLinked(EmptyArchive, s, 0, PlainJob(StagingPath(G), 0, []))
    ensures StagedAlone(Goto(RemoveFile(s, StagingPath(StagingPath(G))), 0, Done(Stored(0))), G)
  {
    SameDirectory(G);
    SameDirectory(StagingPath(G));
    LoneFile(s, StagingPath(G));
    hide StagingPath, EmptyLinked, RemoveFile, Flat, Idle, File;
  }

  lemma LoneFile(s: State, F: Path)
    requires StagingPath(F) != F && EmptyLinked(EmptyArchive, s, 0, PlainJob(F, 0, []))
    ensures
      var t := Goto(RemoveFile(s, StagingPath(F)), 0, Done(Stored(0)));
      && Flat(t, |F|) && t.names.Keys == {F} && IsFinalized(t, F) && File(t, F) == [] && Idle(t, 1)
      && t.ups == map[0 := Upload(PlainJob(F, 0, []), Done(Stored(0)), 0, 0, true)]
  {
    hide StagingPath;
    var S := StagingPath(F);
    assert s.names == map[S := 0, F := 0];
    assert s.names - {S} == map[F := 0];
  }

  /** A later upload to `G` resumes into that capture: its bytes change. */
  lemma StagedNameChanges(d: Discipline, G: Path)
    requires FinalName(G) && !d.plainNames
    ensures !Immutable(d, StagingPath(G)) && !Reassembly(d, StagingPath(G))
  {
    var F, job := StagingPath(G), PlainJob(G, 0, [X]);
    var run, s := StoreStaged(d, G);
    StagedJobs(G);
    SameDirectory(G);
    AllowedAfter(d, s, G, job);
    hide WfJob, StagingPath, IsStagingName, Apply, Enabled, Respects, Valid;
    var t;
    run, t := OpenPlain(d, EmptyArchive, run, 1, job);
    LateAppend(d, run, 1, F);
  }

  lemma AllowedAfter(d: Discipline, s: State, G: Path, job: Job)
    requires StagedAlone(s, G) && WfJob(job) && job.mode == Plain && !d.plainNames
    ensures Enabled(s, Begin(1, job)) && Respects(d, s, Begin(1, job))
  {
    IdleAllows(d, s, 1, job);
  }

  /** And when that upload finishes, the capture is gone: no sweep, no delete, two stores. */
  lemma StagedNameIsRemoved(d: Discipline, before: seq<Action>, s: State, G: Path)
    returns (after: seq<Action>, t: State)
    requires FinalName(G) && !d.plainNames
    requires Valid(d, EmptyArchive, before) && Exec(EmptyArchive, before) == s && StagedAlone(s, G)
    ensures Valid(d, s, after) && Exec(s, after) == t && Unswept(after)
    ensures RemovedBy(s, t, G)
  {
    var job := PlainJob(G, 0, []);
    StagedJobs(G);
    SameDirectory(G);
    AllowedAfter(d, s, G, job);
    hide WfJob, StagingPath, IsStagingName, Apply, Enabled, Respects, Valid;
    after, t := LinkEmpty(d, s, [], 1, job);
    GoneAfterUnlink(s, t, G);
    after, t := UnlinkStaging(d, s, after, 1);
  }

  ghost predicate RemovedBy(s: State, t: State, G: Path) {
    && Flat(t, |G|) && t.names.Keys == {G} && Idle(t, 2)
    && 1 in t.ups && t.ups == s.ups[1 := t.ups[1]]
  }

  lemma GoneAfterUnlink(s: State, t: State, G: Path)
    requires FinalName(G) && StagedAlone(s, G) && EmptyLinked(s, t, 1, PlainJob(G, 0, []))
    ensures RemovedBy(s, Goto(RemoveFile(t, StagingPath(G)), 1, Done(Stored(0))), G)
  {
    SameDirectory(G);
    hide StagingPath;
  }

  /** The finalized capture does not even stay bound. */
  lemma StagedNameShrinks(d: Discipline, G: Path)
    requires FinalName(G) && !d.plainNames
    ensures !GrowsOnly(d, StagingPath(G))
  {
    var F := StagingPath(G);
    var before, s := StoreStaged(d, G);
    var after, t := StagedNameIsRemoved(d, before, s, G);
    SameDirectory(G);
    hide StagingPath, Valid, Exec, Apply;
    assert Continues(d, before, after, F);
    assert !Grown(s, t, F);
  }

  /** So its name can be stored to again, and that store returns Ok, too. */
  lemma StagedNameStoredTwice(d: Discipline, G: Path)
    requires FinalName(G) && !d.plainNames
    ensures !OkOncePerName(d, StagingPath(G))
  {
    var before, s := StoreStaged(d, G);
    var after, t := StagedNameIsRemoved(d, before, s, G);
    assert Unswept(before + after);
    ExecAppend(d, EmptyArchive, before, after);
    NamesApart(G);
    StagedJobs(G);
    hide *;
    var run, v := StoreAgain(d, before + after, s, t, G);
    TwoStores(d, run, v, StagingPath(G));
  }

  lemma NamesApart(G: Path)
    requires G != []
    ensures |StagingPath(G)| == |StagingPath(StagingPath(G))| == |G|
    ensures G != StagingPath(G) && StagingPath(StagingPath(G)) !in {G, StagingPath(G)}
  {
    SameDirectory(G);
    SameDirectory(StagingPath(G));
  }

  lemma StoreAgain(d: Discipline, before: seq<Action>, s: State, t: State, G: Path) returns (run: seq<Action>, v: State)
    requires FinalName(G) && !d.plainNames && StagedAlone(s, G) && RemovedBy(s, t, G)
    requires Valid(d, EmptyArchive, before) && Exec(EmptyArchive, before) == t && Unswept(before)
    ensures Valid(d, EmptyArchive, run) && Exec(EmptyArchive, run) == v && Unswept(run)
    ensures StoredTwo(v, StagingPath(G))
  {
    var F := StagingPath(G);
    var job := PlainJob(F, 0, []);
    StagedJobs(G);
    ReadyAgain(s, t, G);
    IdleAllows(d, t, 2, job);
    hide WfJob, StagingPath, IsStagingName, Apply, Enabled, Respects, Valid, Exec, StagedAlone, RemovedBy, Flat, Idle;
    run, v := LinkEmpty(d, EmptyArchive, before, 2, job);
    run, v := UnlinkStaging(d, EmptyArchive, run, 2);
  }

  lemma ReadyAgain(s: State, t: State, G: Path)
    requires G != [] && StagedAlone(s, G) && RemovedBy(s, t, G)
    ensures
      var F := StagingPath(G);
      && F != [] && Flat(t, |F|) && F !in t.names && ReportedSize(t, StagingPath(F), 0) == 0 && Idle(t, 2)
      && 0 in t.ups && t.ups[0].job == PlainJob(F, 0, []) && t.ups[0].pc == Done(Stored(0))
  {
    NamesApart(G);
    hide StagingPath;
  }

  /** Uploads 0 and 2 stored to `F` and returned Ok. */
  predicate StoredTwo(s: State, F: Path) {
    && 0 in s.ups && s.ups[0].job == PlainJob(F, 0, []) && s.ups[0].pc == Done(Stored(0))
    && 2 in s.ups && s.ups[2].job == PlainJob(F, 0, []) && s.ups[2].pc == Done(Stored(0))
  }

  lemma TwoStores(d: Discipline, run: seq<Action>, s: State, F: Path)
    requires Valid(d, EmptyArchive, run) && Exec(EmptyArchive, run) == s && Unswept(run) && StoredTwo(s, F)
    ensures !OkOncePerName(d, F)
  {
    UnsweptKeepsAll(run, F);
    var two: set<nat> := {0, 2};
    assert two <= Successes(s, F);
    SubsetSize(two, Successes(s, F));
    assert |two| == 2;
  }

  lemma {:induction false} UnsweptKeepsAll(run: seq<Action>, F: Path)
    requires Unswept(run)
    ensures Removals(run, F) == 0
    decreases |run|
  {
    if run != [] {
      assert run[0] in run;
      assert forall a :: a in run[1..] ==> a in run;
      UnsweptKeepsAll(run[1..], F);
    }
  }

  /** The name whose staging name `F` is. */
  function Unstaged(F: Path): Path
    requires IsStagingName(F)
  {
    Dir(F) + [Last(F)[..|Last(F)| - |STAGING_SUFFIX|]]
  }

  lemma UnstagedIsFinal(F: Path)
    requires FinalName(F) && IsStagingName(F)
    ensures FinalName(Unstaged(F)) && StagingPath(Unstaged(F)) == F
  {
    var G := Unstaged(F);
    assert F == Dir(F) + [Last(F)];
    assert Last(F) == Last(G) + STAGING_SUFFIX;
    SuffixKeepsTestStatus(Last(G));
  }

  // ------------------------------------------------------------------ the exact conditions

  /** Byte-exact immutability of a finalized capture holds exactly under the discipline; for a name
      that is itself a staging name, exactly if no capture is stored under such names. */
  lemma ImmutableExactly(d: Discipline, F: Path)
    requires FinalName(F)
    ensures Immutable(d, F) <==>
              && d.plainNames
              && (!IsStagingName(F) ==> d.oneWriter && (IsAgeName(F) ==> d.checksWork || d.plaintextOnly))
  {
    if IsStagingName(F) {
      if d.plainNames {
        UnusedIsFine(d, F);
      } else {
        UnstagedIsFinal(F);
        StagedNameChanges(d, Unstaged(F));
      }
    } else if KeepsBytes(d, F) {
      DisciplineKeepsBytes(d, F);
    } else if !d.oneWriter {
      OverlapChangesBytes(d, F);
    } else if !d.plainNames {
      StagingNameChangesBytes(d, F);
    } else {
      FailedCheckTruncates(d, F);
    }
  }

  /** A finalized capture stays bound and only grows, in every interleaving, exactly when no
      encrypted upload can race it past the check: always among plaintext uploads. For a name that
      is itself a staging name, exactly if no capture is stored under such names. */
  lemma GrowsOnlyExactly(d: Discipline, F: Path)
    requires FinalName(F)
    ensures GrowsOnly(d, F) <==>
              if IsStagingName(F) then d.plainNames
              else !IsAgeName(F) || d.plaintextOnly || (d.oneWriter && d.checksWork)
  {
    if IsStagingName(F) {
      if d.plainNames {
        UnusedIsFine(d, F);
      } else {
        UnstagedIsFinal(F);
        StagedNameShrinks(d, Unstaged(F));
      }
    } else if KeepsPrefix(d, F) {
      DisciplineKeepsPrefix(d, F);
    } else if !d.oneWriter {
      EncryptedOverlapTruncates(d, F);
    } else {
      FailedCheckTruncates(d, F);
    }
  }

  /** A finalized capture is the surviving staged bytes followed by the input, every byte at its
      own offset, exactly under the discipline together with a quiet sweep. */
  lemma ReassemblyExactly(d: Discipline, F: Path)
    requires FinalName(F)
    ensures Reassembly(d, F) <==>
              && d.plainNames
              && (!IsStagingName(F) ==>
                    d.oneWriter && d.quietSweep && (IsAgeName(F) ==> d.checksWork || d.plaintextOnly))
  {
    if IsStagingName(F) {
      if d.plainNames {
        UnusedIsFine(d, F);
      } else {
        UnstagedIsFinal(F);
        StagedNameChanges(d, Unstaged(F));
      }
    } else if Reassembles(d, F) {
      DisciplineReassembles(d, F);
    } else if !d.oneWriter {
      OverlapChangesBytes(d, F);
    } else if !d.plainNames {
      StagingNameChangesBytes(d, F);
    } else if !d.quietSweep {
      SweepRaceLosesBytes(d, F);
    } else {
      FailedCheckTruncates(d, F);
    }
  }

  /** In every interleaving, of plaintext and encrypted uploads, with any failures, a name is stored
      to with Ok at most once until the sweep removes it, exactly if the name is no staging name or
      no capture is stored under such names. */
  lemma OkOncePerNameExactly(d: Discipline, F: Path)
    requires FinalName(F)
    ensures OkOncePerName(d, F) <==> !IsStagingName(F) || d.plainNames
  {
    if !IsStagingName(F) || d.plainNames {
      AtMostOneOkPerName(d, F);
    } else {
      UnstagedIsFinal(F);
      StagedNameStoredTwice(d, Unstaged(F));
    }
  }

  lemma UnusedIsFine(d: Discipline, F: Path)
    requires FinalName(F) && IsStagingName(F) && d.plainNames
    ensures Immutable(d, F) && GrowsOnly(d, F) && Reassembly(d, F)
  {
    forall run | Valid(d, EmptyArchive, run)
      ensures !IsFinalized(Exec(EmptyArchive, run), F)
    {
      StagingNamesUnused(d, run, F);
    }
  }
}
