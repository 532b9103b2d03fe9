/** Where every finalized byte comes from: the staged bytes that survived, followed by the input
    of the upload that linked the name, each byte written by one upload to that name at its
    start offset plus its index. */
module StoreReassembly {
  import opened Append
  import opened Store
  import opened StoreKin
  import opened StoreImmutability

  /** The cell at offset `k` of a file of `F` was written there by an upload to `F`. */
  ghost predicate WrittenInPlace(s: State, F: Path, k: nat, c: Cell) {
    && Captures(s, c.writer, F)
    && c.index < |s.ups[c.writer].job.output|
    && c.byte == s.ups[c.writer].job.output[c.index]
    && s.ups[c.writer].job.start + c.index == k
  }

  ghost predicate Provenance(s: State, F: Path, c: seq<Cell>) {
    forall k :: 0 <= k < |c| ==> WrittenInPlace(s, F, k, c[k])
  }

  /** `c` is staged bytes up to the start offset, then the first `n` output bytes of `u`. */
  ghost predicate Extended(c: seq<Cell>, j: Job, u: nat, n: nat) {
    && n <= |j.output| && |c| == j.start + n
    && forall k :: j.start <= k < |c| ==> c[k] == Cell(j.output[k - j.start], u, k - j.start)
  }

  /** What a finalized file looks like. */
  ghost predicate Assembled(s: State, F: Path) {
    F in s.names ==>
      && F in s.binder && Captures(s, s.binder[F], F) && s.ups[s.binder[F]].linked
      && Extended(File(s, F), s.ups[s.binder[F]].job, s.binder[F], |s.ups[s.binder[F]].job.output|)
      && Provenance(s, F, File(s, F))
  }

  predicate SizeRead(pc: Pc) {
    pc.MkDirs? || pc.Open?
  }

  /** The staging file still has the size the offset was checked against. */
  predicate StagedUpTo(s: State, S: Path, start: nat) {
    if S in s.names then |File(s, S)| == start else start == 0 || S in s.dirs
  }

  ghost predicate StagingInv(s: State, F: Path) {
    var S := StagingPath(F);
    && (S in s.names ==> Provenance(s, F, File(s, S)))
    && (forall u :: Captures(s, u, F) && s.ups[u].Holding() ==>
          && S in s.names && s.names[S] == s.ups[u].handle
          && Extended(File(s, S), s.ups[u].job, u, s.ups[u].pos)
          && (s.ups[u].pc.Copy? || s.ups[u].pos == |s.ups[u].job.output|))
    && (forall u :: Captures(s, u, F) && s.ups[u].job.mode == Plain && SizeRead(s.ups[u].pc) ==>
          StagedUpTo(s, S, s.ups[u].job.start))
  }

  ghost predicate AssemblyInv(s: State, F: Path) {
    StagingInv(s, F) && Assembled(s, F)
  }

  ghost predicate NoWriter(s: State, F: Path) {
    forall u :: Captures(s, u, F) ==> !s.ups[u].Active()
  }

  /** The staging file of `F` is as it was, or gone while no upload to `F` is active. */
  ghost predicate StagingFrame(s: State, t: State, F: Path) {
    var S := StagingPath(F);
    && (S in t.names ==> Kept(s, t, S))
    && (S in s.names && S !in t.names ==> NoWriter(s, F))
    && (S in s.dirs && S !in t.dirs ==> NoWriter(s, F))
  }

  /** Uploads to `F` are as they were, except for crashed and new ones. */
  ghost predicate UploadsFrame(s: State, t: State, F: Path) {
    && (forall u :: u in s.ups ==> u in t.ups && t.ups[u].job == s.ups[u].job && (s.ups[u].linked ==> t.ups[u].linked))
    && (forall u :: Captures(t, u, F) && t.ups[u].Active() && !t.ups[u].pc.Check? ==>
        u in s.ups && t.ups[u] == s.ups[u])
  }

  lemma JobsKeepProvenance(s: State, t: State, F: Path, c: seq<Cell>)
    requires Provenance(s, F, c)
    requires forall u :: u in s.ups ==> u in t.ups && t.ups[u].job == s.ups[u].job
    ensures Provenance(t, F, c)
  {
    forall k | 0 <= k < |c|
      ensures WrittenInPlace(t, F, k, c[k])
    {
      assert WrittenInPlace(s, F, k, c[k]);
    }
  }

  lemma FrameKeepsAssembly(s: State, t: State, F: Path)
    requires AssemblyInv(s, F)
    requires StagingFrame(s, t, F) && UploadsFrame(s, t, F)
    requires F in t.names ==> Kept(s, t, F) && F in s.binder && F in t.binder && t.binder[F] == s.binder[F]
    ensures AssemblyInv(t, F)
  {
    hide StagingPath;
    var S := StagingPath(F);
    if F in t.names {
      JobsKeepProvenance(s, t, F, File(s, F));
    }
    if S in t.names {
      JobsKeepProvenance(s, t, F, File(s, S));
    }
  }

  /** What reassembly of `F` takes: immutable bytes, and a sweep that leaves the staging file of
      an active upload alone. */
  predicate Reassembles(d: Discipline, F: Path) {
    KeepsBytes(d, F) && d.quietSweep
  }

  ghost predicate Foreign(s: State, a: Action, F: Path) {
    !(a.Step? && Captures(s, a.u, F))
  }

  /** Among plain names, only an upload to `F` works on files of the kin of `F`. */
  lemma KinIsCapture(j: Job, F: Path)
    requires WfJob(j) && CaptureName(F) && Kin(j.final) == F
    requires j.Normal() ==> !IsStagingName(j.final)
    ensures j.Normal() && j.final == F
  {
    KinKeepsTestStatus(j.final);
    KinOfPlainName(j.final);
  }

  lemma ForeignKin(s: State, a: Action, F: Path)
    requires KinInv(s) && PlainNames(s) && Enabled(s, a) && CaptureName(F)
    requires Foreign(s, a, F) && a.Step?
    ensures
      var j, S := s.ups[a.u].job, StagingPath(F);
      && Kin(S) == F && j.Target() != S && j.final != S && StagingPath(j.final) != S && j.final != F
      && (S in s.names && j.Target() in s.names ==> s.names[S] != s.names[j.Target()])
      && (S in s.names && s.ups[a.u].Holding() ==> s.names[S] != s.ups[a.u].handle)
  {
    var j, S := s.ups[a.u].job, StagingPath(F);
    KinOfStaging(F);
    KinOfPlainName(F);
    TargetKin(j);
    StagingKin(j);
    if Kin(j.final) == F {
      KinIsCapture(j, F);
      assert false;
    }
    hide WfJob, Kin, WfPath, StagingPath, CaptureName, IsStagingName;
    if S in s.names && s.ups[a.u].Holding() {
      assert HandleKin(s, s.ups[a.u].handle, j.final);
    }
  }

  ghost predicate SameStaging(s: State, t: State, S: Path) {
    (S in t.names <==> S in s.names) && (S in s.names ==> Kept(s, t, S)) && s.dirs <= t.dirs
  }

  /** The step works on another file than `S`. */
  ghost predicate Elsewhere(s: State, x: Upload, S: Path) {
    && x.job.Target() != S && x.job.final != S && StagingPath(x.job.final) != S
    && (S in s.names && x.job.Target() in s.names ==> s.names[S] != s.names[x.job.Target()])
    && (S in s.names && x.Holding() ==> s.names[S] != x.handle)
    && (S in s.names ==> s.names[S] < s.next)
  }

  lemma ForeignStepFramesStaging(s: State, a: Action, F: Path)
    requires KinInv(s) && PlainNames(s) && Enabled(s, a) && CaptureName(F)
    requires Foreign(s, a, F) && a.Step?
    ensures StagingFrame(s, Apply(s, a), F)
  {
    ForeignKin(s, a, F);
    assert Elsewhere(s, s.ups[a.u], StagingPath(F));
    ElsewhereFrames(s, a, StagingPath(F));
    hide Apply, KinInv, PlainNames, CaptureName, StagingPath, Enabled, Elsewhere;
  }

  lemma ElsewhereFrames(s: State, a: Action, S: Path)
    requires Enabled(s, a) && a.Step? && Elsewhere(s, s.ups[a.u], S)
    ensures SameStaging(s, Apply(s, a), S)
  {
    var x := s.ups[a.u];
    if x.pc.Open? {
      OpenFrames(s, a.u, a.ok, S);
      hide DoOpen, Elsewhere, SameStaging;
    } else if x.pc.Copy? && a.ok && HasChunk(x, a.k) {
      WriteFrames(s, a.u, a.k, S);
      hide DoWrite, Elsewhere, SameStaging;
    } else {
      RestFrames(s, a, S);
    }
  }

  /** Opening another file leaves the file `S` as it is. */
  lemma OpenFrames(s: State, u: nat, ok: bool, S: Path)
    requires u in s.ups && Elsewhere(s, s.ups[u], S)
    ensures SameStaging(s, DoOpen(s, u, ok), S)
  {
    hide StagingPath;
  }

  lemma WriteFrames(s: State, u: nat, k: nat, S: Path)
    requires u in s.ups && HasChunk(s.ups[u], k) && s.ups[u].pc.Copy? && Elsewhere(s, s.ups[u], S)
    ensures SameStaging(s, DoWrite(s, u, k), S)
  {
    hide WriteAt, Cells, StagingPath;
  }

  lemma RestFrames(s: State, a: Action, S: Path)
    requires Enabled(s, a) && a.Step? && !s.ups[a.u].pc.Open?
    requires !(s.ups[a.u].pc.Copy? && a.ok && HasChunk(s.ups[a.u], a.k))
    requires Elsewhere(s, s.ups[a.u], S)
    ensures SameStaging(s, Apply(s, a), S)
  {
    hide WfJob, StagingPath, ProperPrefixes;
    if !s.ups[a.u].pc.Link? {
      StepShape(s, a.u, a.ok, a.k);
    }
  }

  lemma SweepFramesStaging(d: Discipline, s: State, a: Action, F: Path)
    requires (a.SweepFile? || a.SweepDir?) && StagingPath(F) == a.path
    requires d.quietSweep && Enabled(s, a) && Respects(d, s, a)
    ensures NoWriter(s, F)
  {
    assert !BusyStaging(s, a.path);
  }

  lemma ForeignFramesStaging(d: Discipline, s: State, a: Action, F: Path)
    requires KinInv(s) && PlainNames(s) && d.quietSweep && Enabled(s, a) && Respects(d, s, a)
    requires CaptureName(F) && Foreign(s, a, F)
    ensures StagingFrame(s, Apply(s, a), F)
  {
    if a.Step? {
      ForeignStepFramesStaging(s, a, F);
    } else {
      if (a.SweepFile? || a.SweepDir?) && a.path == StagingPath(F) {
        SweepFramesStaging(d, s, a, F);
      }
      hide WfJob, Kin, WfPath, StagingPath, CaptureName, IsStagingName, ProperPrefixes;
    }
  }

  lemma ForeignFramesUploads(s: State, a: Action, F: Path)
    requires Enabled(s, a) && Foreign(s, a, F)
    ensures UploadsFrame(s, Apply(s, a), F)
  {
    if a.Step? {
      StepShape(s, a.u, a.ok, a.k);
      LinkedStays(s, a);
      hide DoStep;
    } else {
      hide WfJob, ProperPrefixes;
    }
  }

  lemma LinkedStays(s: State, a: Action)
    requires Enabled(s, a) && a.Step?
    ensures s.ups[a.u].linked ==> Apply(s, a).ups[a.u].linked
  {
    if !s.ups[a.u].pc.Link? {
      StepShape(s, a.u, a.ok, a.k);
    }
  }

  lemma ForeignKeepsBinder(s: State, a: Action, F: Path)
    requires Enabled(s, a) && Foreign(s, a, F) && KinInv(s) && CaptureName(F)
    ensures F in s.binder && F in Apply(s, a).names ==> F in Apply(s, a).binder && Apply(s, a).binder[F] == s.binder[F]
  {
    if a.Step? {
      assert WfJob(s.ups[a.u].job);
      CaptureFacts(F, s.ups[a.u].job);
      if s.ups[a.u].job.final == F {
        CaptureIsNoProbe(F, s.ups[a.u].job);
      }
      StepKeepsBinder(s, a, F);
    }
  }

  lemma StepKeepsBinder(s: State, a: Action, F: Path)
    requires Enabled(s, a) && a.Step? && s.ups[a.u].job.final != F && StagingPath(s.ups[a.u].job.final) != F
    ensures F in s.binder ==> F in Apply(s, a).binder && Apply(s, a).binder[F] == s.binder[F]
  {
    hide StagingPath, ProperPrefixes, Cells, WriteAt;
    if !s.ups[a.u].pc.Link? {
      StepShape(s, a.u, a.ok, a.k);
    }
  }

  /** Upload `u` to `F` is the only active one; the others cannot break the staging invariant. */
  ghost predicate OnlyWriter(s: State, u: nat, F: Path) {
    Captures(s, u, F) && forall v :: Captures(s, v, F) && s.ups[v].Active() ==> v == u
  }

  ghost predicate OnlyUpload(s: State, t: State, u: nat) {
    && u in s.ups && u in t.ups && t.ups == s.ups[u := t.ups[u]]
    && t.ups[u].job == s.ups[u].job && (s.ups[u].linked ==> t.ups[u].linked)
  }

  /** A step that changes no file. */
  lemma LocalStepKeepsAssembly(s: State, t: State, u: nat, F: Path)
    requires AssemblyInv(s, F) && OnlyWriter(s, u, F) && OnlyUpload(s, t, u)
    requires t.names == s.names && t.inodes == s.inodes && t.binder == s.binder && s.dirs <= t.dirs
    requires
      var x, y := s.ups[u], t.ups[u];
      && (y.Holding() ==>
            && x.Holding() && y.handle == x.handle && y.pos == x.pos
            && (y.pc.Copy? || y.pos == |y.job.output|))
      && (SizeRead(y.pc) && y.job.mode == Plain ==>
            SizeRead(x.pc) || StagedUpTo(s, StagingPath(F), x.job.start))
    ensures AssemblyInv(t, F)
  {
    hide StagingPath;
    var S := StagingPath(F);
    if F in t.names {
      JobsKeepProvenance(s, t, F, File(s, F));
    }
    if S in t.names {
      JobsKeepProvenance(s, t, F, File(s, S));
    }
  }

  /** The staging file now holds `c`, extended by `u` as far as its position. */
  lemma StagedByWriter(s: State, t: State, u: nat, F: Path)
    requires OnlyWriter(s, u, F) && OnlyUpload(s, t, u) && F !in t.names
    requires t.ups[u].pc.Copy?
    requires var S := StagingPath(F);
      && S in t.names && t.names[S] == t.ups[u].handle
      && Extended(File(t, S), t.ups[u].job, u, t.ups[u].pos)
      && Provenance(t, F, File(t, S))
    ensures AssemblyInv(t, F)
  {
    hide StagingPath;
  }

  lemma OpenAssembles(s: State, u: nat, F: Path)
    requires AssemblyInv(s, F) && OnlyWriter(s, u, F) && F !in s.names && WfJob(s.ups[u].job) && s.ups[u].pc.Open?
    requires StagingPath(F) != F
    ensures AssemblyInv(DoOpen(s, u, true), F)
  {
    hide StagingPath, WfPath, IsTestPath, IsAgeName;
    var S, x, t := StagingPath(F), s.ups[u], DoOpen(s, u, true);
    if S in s.dirs || Dir(S) !in s.dirs {
      LocalStepKeepsAssembly(s, t, u, F);
    } else {
      if S in s.names {
        JobsKeepProvenance(s, t, F, File(s, S));
      }
      StagedByWriter(s, t, u, F);
    }
  }

  lemma AppendedCells(c: seq<Cell>, j: Job, u: nat, pos: nat, k: nat)
    requires Extended(c, j, u, pos) && pos + k <= |j.output|
    ensures Extended(c + Cells(j.output, u, pos, k), j, u, pos + k)
    ensures j.start == 0 ==> WriteAt(c, pos, Cells(j.output, u, pos, k)) == c + Cells(j.output, u, pos, k)
  {
    assert j.start == 0 ==> |c| == pos && c[..pos] == c;
  }

  lemma AppendedProvenance(s: State, F: Path, c: seq<Cell>, u: nat, pos: nat, k: nat)
    requires Captures(s, u, F) && Provenance(s, F, c) && Extended(c, s.ups[u].job, u, pos)
    requires pos + k <= |s.ups[u].job.output|
    ensures Provenance(s, F, c + Cells(s.ups[u].job.output, u, pos, k))
  {
  }

  lemma WriteAssembles(s: State, u: nat, k: nat, F: Path)
    requires AssemblyInv(s, F) && OnlyWriter(s, u, F) && F !in s.names && WfJob(s.ups[u].job)
    requires s.ups[u].pc.Copy? && HasChunk(s.ups[u], k)
    ensures AssemblyInv(DoWrite(s, u, k), F)
  {
    hide StagingPath, WfPath, IsTestPath, IsAgeName, WriteAt, Cells;
    var S, x, t := StagingPath(F), s.ups[u], DoWrite(s, u, k);
    var c := File(s, S);
    AppendedCells(c, x.job, u, x.pos, k);
    AppendedProvenance(s, F, c, u, x.pos, k);
    assert File(t, S) == c + Cells(x.job.output, u, x.pos, k);
    JobsKeepProvenance(s, t, F, File(t, S));
    StagedByWriter(s, t, u, F);
  }

  lemma LinkAssembles(s: State, u: nat, F: Path)
    requires AssemblyInv(s, F) && OnlyWriter(s, u, F) && F !in s.names && s.ups[u].pc.Link?
    requires StagingPath(F) != F
    ensures AssemblyInv(DoLink(s, u, true), F)
  {
    hide StagingPath;
    var S, t := StagingPath(F), DoLink(s, u, true);
    assert S in s.names && s.ups[u].pos == |s.ups[u].job.output|;
    if F in s.dirs {
      LocalStepKeepsAssembly(s, t, u, F);
    } else {
      LinkedAssembles(s, t, u, F);
    }
  }

  lemma LinkedAssembles(s: State, t: State, u: nat, F: Path)
    requires OnlyWriter(s, u, F) && OnlyUpload(s, t, u) && t.ups[u].pc.Unlink? && t.ups[u].linked
    requires var S := StagingPath(F);
      && S != F && S in s.names && t.names == s.names[F := s.names[S]] && t.inodes == s.inodes
      && Extended(File(s, S), s.ups[u].job, u, |s.ups[u].job.output|) && Provenance(s, F, File(s, S))
    requires t.binder == s.binder[F := u]
    ensures AssemblyInv(t, F)
  {
    hide StagingPath;
    JobsKeepProvenance(s, t, F, File(s, StagingPath(F)));
  }

  lemma UnlinkKeepsAssembly(s: State, u: nat, ok: bool, outcome: Outcome, F: Path)
    requires AssemblyInv(s, F) && OnlyWriter(s, u, F) && StagingPath(F) != F
    ensures AssemblyInv(DoRemoveStaging(s, u, ok, outcome), F)
  {
    hide StagingPath;
    var S, t := StagingPath(F), DoRemoveStaging(s, u, ok, outcome);
    if F in t.names {
      JobsKeepProvenance(s, t, F, File(s, F));
    }
    if S in t.names {
      JobsKeepProvenance(s, t, F, File(s, S));
    }
  }

  lemma WriterPosition(s: State, u: nat, F: Path)
    requires AssemblyInv(s, F) && Captures(s, u, F) && s.ups[u].Holding()
    ensures s.ups[u].pos <= |s.ups[u].job.output|
    ensures s.ups[u].pc.Copy? || s.ups[u].pos == |s.ups[u].job.output|
  {
  }

  lemma LocalOwnStep(s: State, a: Action, F: Path)
    requires AssemblyInv(s, F) && a.Step? && Enabled(s, a) && OnlyWriter(s, a.u, F)
    requires
      var pc := s.ups[a.u].pc;
      || pc.Check? || pc.Size? || pc.MkDirs? || pc.Flush?
      || (pc.Copy? && !(a.ok && HasChunk(s.ups[a.u], a.k))) || (pc.Open? && !a.ok)
    requires WfJob(s.ups[a.u].job)
    ensures AssemblyInv(Apply(s, a), F)
  {
    hide StagingPath, WfPath, IsTestPath, IsAgeName, ProperPrefixes, AssemblyInv;
    var x, t := s.ups[a.u], Apply(s, a);
    if x.Holding() {
      WriterPosition(s, a.u, F);
    }
    LocalStepKeepsAssembly(s, t, a.u, F);
  }

  lemma OwnStepKeepsAssembly(d: Discipline, s: State, a: Action, F: Path)
    requires StoreInv(d, s, F) && Reassembles(d, F) && CaptureName(F)
    requires AssemblyInv(s, F) && a.Step? && Captures(s, a.u, F) && Enabled(s, a)
    ensures AssemblyInv(Apply(s, a), F)
  {
    var x, u := s.ups[a.u], a.u;
    StagingKin(x.job);
    assert OnlyWriter(s, u, F);
    if x.pc.Open? && a.ok {
      OpenAssembles(s, u, F);
    } else if x.pc.Copy? && a.ok && HasChunk(x, a.k) {
      WriteAssembles(s, u, a.k, F);
    } else if x.pc.Link? {
      LinkStepAssembles(s, u, a.ok, F);
    } else if x.pc.Unlink? || x.pc.Discard? {
      UnlinkKeepsAssembly(s, u, a.ok, if x.pc.Unlink? then Stored(|x.job.input|) else Failed(x.pc.error), F);
    } else {
      LocalOwnStep(s, a, F);
    }
  }

  lemma LinkStepAssembles(s: State, u: nat, ok: bool, F: Path)
    requires AssemblyInv(s, F) && OnlyWriter(s, u, F) && F !in s.names && s.ups[u].pc.Link?
    requires StagingPath(F) != F
    ensures AssemblyInv(DoLink(s, u, ok), F)
  {
    if ok {
      LinkAssembles(s, u, F);
    } else {
      hide StagingPath, AssemblyInv;
      LocalStepKeepsAssembly(s, DoLink(s, u, ok), u, F);
    }
  }

  lemma StepKeepsAssembly(d: Discipline, s: State, a: Action, F: Path)
    requires StoreInv(d, s, F) && Reassembles(d, F) && CaptureName(F)
    requires AssemblyInv(s, F) && Enabled(s, a) && Respects(d, s, a)
    ensures AssemblyInv(Apply(s, a), F)
  {
    if Foreign(s, a, F) {
      var t := Apply(s, a);
      ForeignFramesStaging(d, s, a, F);
      ForeignFramesUploads(s, a, F);
      ForeignKeepsBinder(s, a, F);
      if F in t.names {
        if F !in s.names {
          OnlyLinkBinds(s, a, F);
        } else if a != SweepFile(F) {
          StepKeepsBytes(d, s, a, F);
        }
      }
      hide AssemblyInv, Apply, StoreInv;
      AssembledHasBinder(s, F);
      FrameKeepsAssembly(s, t, F);
    } else {
      OwnStepKeepsAssembly(d, s, a, F);
    }
  }

  lemma AssembledHasBinder(s: State, F: Path)
    requires AssemblyInv(s, F)
    ensures F in s.names ==> F in s.binder
  {
  }

  lemma {:induction false} RunKeepsAssembly(d: Discipline, s: State, actions: seq<Action>, F: Path)
    requires StoreInv(d, s, F) && Reassembles(d, F) && CaptureName(F)
    requires AssemblyInv(s, F) && Valid(d, s, actions)
    ensures AssemblyInv(Exec(s, actions), F)
    decreases |actions|
  {
    if actions != [] {
      StepKeepsInv(d, s, actions[0], F);
      StepKeepsAssembly(d, s, actions[0], F);
      RunKeepsAssembly(d, Apply(s, actions[0]), actions[1..], F);
    }
  }

  /** In every run from the empty archive, a finalized `F` is assembled. */
  ghost predicate Reassembly(d: Discipline, F: Path) {
    forall run :: Valid(d, EmptyArchive, run) && IsFinalized(Exec(EmptyArchive, run), F) ==>
      Assembled(Exec(EmptyArchive, run), F)
  }

  lemma DisciplineReassembles(d: Discipline, F: Path)
    requires CaptureName(F) && Reassembles(d, F)
    ensures Reassembly(d, F)
  {
    forall run | Valid(d, EmptyArchive, run)
      ensures Assembled(Exec(EmptyArchive, run), F)
    {
      RunKeepsAssembly(d, EmptyArchive, run, F);
    }
  }

  function Bytes(c: seq<Cell>): seq<Byte> {
    seq(|c|, i requires 0 <= i < |c| => c[i].byte)
  }

  /** The bytes of a finalized capture are the staged bytes that survived, up to the start offset
      of the upload that linked it, followed by that upload's whole output. */
  lemma AssembledBytes(s: State, F: Path)
    requires F in s.names && Assembled(s, F)
    ensures
      var j, c := s.ups[s.binder[F]].job, File(s, F);
      && j.start <= |c| && Bytes(c) == Bytes(c[..j.start]) + j.output
      && forall k :: 0 <= k < j.start ==> WrittenInPlace(s, F, k, c[k])
  {
  }
}
