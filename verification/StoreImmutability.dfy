/** Finalized names under every interleaving: the prefix-growth law of plaintext uploads, and
    byte-exact immutability when captures to one name do not overlap. */
module StoreImmutability {
  import opened Append
  import opened Store
  import opened StoreKin

  /** `F` stays bound to its inode. */
  ghost predicate SameInode(s: State, t: State, F: Path) {
    F in s.names && F in t.names && t.names[F] == s.names[F]
  }

  ghost predicate Kept(s: State, t: State, F: Path) {
    SameInode(s, t, F) && File(t, F) == File(s, F)
  }

  ghost predicate Grown(s: State, t: State, F: Path) {
    SameInode(s, t, F) && File(s, F) <= File(t, F)
  }

  lemma CaptureFacts(F: Path, j: Job)
    requires CaptureName(F) && WfJob(j)
    ensures Kin(F) == F && StagingPath(j.final) != F && (j.mode == Quarantine ==> j.final != F)
  {
    KinOfPlainName(F);
    KinOfStaging(j.final);
  }

  /** A capture's inode is never the one a quarantine upload writes to. */
  lemma CaptureApartFromQuarantine(s: State, u: nat, F: Path, i: nat)
    requires KinInv(s) && u in s.ups && s.ups[u].job.mode == Quarantine
    requires CaptureName(F) && F in s.names && s.names[F] == i
    ensures s.ups[u].job.final in s.names ==> s.names[s.ups[u].job.final] != i
    ensures s.ups[u].Holding() ==> s.ups[u].handle != i
  {
    var q := s.ups[u].job.final;
    assert WfJob(s.ups[u].job);
    if (q in s.names && s.names[q] == i) || (s.ups[u].Holding() && s.ups[u].handle == i) {
      assert Kin(F) == Kin(q) by {
        hide Kin;
        assert s.ups[u].Holding() ==> HandleKin(s, s.ups[u].handle, q);
      }
      KinKeepsTestStatus(F);
      KinKeepsTestStatus(q);
    }
  }

  /** Who may change the bytes behind `F`: an append by a plaintext upload, or an encrypted
      upload, and only one whose final name has `F` as its kin. */
  ghost predicate TouchedBy(s: State, a: Action, F: Path) {
    && a.Step? && a.u in s.ups && s.ups[a.u].job.Normal() && Kin(s.ups[a.u].job.final) == F
    && (s.ups[a.u].pc.Copy? || (s.ups[a.u].pc.Open? && s.ups[a.u].job.mode == Encrypted))
  }

  lemma OpenTouchesKinOnly(s: State, a: Action, F: Path)
    requires KinInv(s) && Enabled(s, a) && CaptureName(F) && F in s.names
    requires a.Step? && s.ups[a.u].pc.Open?
    ensures Kept(s, Apply(s, a), F) || (TouchedBy(s, a, F) && SameInode(s, Apply(s, a), F))
  {
    hide WfJob, Kin, WfPath, StagingPath, CaptureName;
    var x := s.ups[a.u];
    var p := x.job.Target();
    TargetKin(x.job);
    CaptureFacts(F, x.job);
    if x.job.mode == Quarantine {
      CaptureApartFromQuarantine(s, a.u, F, s.names[F]);
    } else if p in s.names && s.names[p] == s.names[F] {
      assert Kin(p) == Kin(F);
    }
  }

  lemma CopyTouchesKinOnly(s: State, a: Action, F: Path)
    requires KinInv(s) && Enabled(s, a) && CaptureName(F) && F in s.names
    requires a.Step? && s.ups[a.u].pc.Copy?
    ensures Kept(s, Apply(s, a), F) || (TouchedBy(s, a, F) && SameInode(s, Apply(s, a), F))
    ensures s.ups[a.u].job.mode != Encrypted ==> Grown(s, Apply(s, a), F)
  {
    hide WfJob, Kin, WfPath, StagingPath, CaptureName, WriteAt, Cells;
    var x := s.ups[a.u];
    CaptureFacts(F, x.job);
    if x.job.mode == Quarantine {
      CaptureApartFromQuarantine(s, a.u, F, s.names[F]);
    } else if x.handle == s.names[F] {
      assert HandleKin(s, x.handle, x.job.final);
    }
  }

  lemma OtherStepsTouchNothing(s: State, a: Action, F: Path)
    requires KinInv(s) && Enabled(s, a) && CaptureName(F) && F in s.names && a != SweepFile(F)
    requires !(a.Step? && (s.ups[a.u].pc.Open? || s.ups[a.u].pc.Copy?))
    ensures Kept(s, Apply(s, a), F)
  {
    hide WfJob, Kin, WfPath, StagingPath, CaptureName, ProperPrefixes;
    if a.Step? {
      CaptureFacts(F, s.ups[a.u].job);
      if s.ups[a.u].pc.Link? {
        hide DoRemoveStaging, DoWrite;
      } else {
        StepShape(s, a.u, a.ok, a.k);
        hide DoStep;
      }
    }
  }

  lemma StepTouchesKinOnly(s: State, a: Action, F: Path)
    requires KinInv(s) && Enabled(s, a) && CaptureName(F) && F in s.names && a != SweepFile(F)
    ensures Kept(s, Apply(s, a), F) || (TouchedBy(s, a, F) && SameInode(s, Apply(s, a), F))
    ensures TouchedBy(s, a, F) && s.ups[a.u].job.mode == Plain ==> Grown(s, Apply(s, a), F)
  {
    if a.Step? && s.ups[a.u].pc.Open? {
      OpenTouchesKinOnly(s, a, F);
    } else if a.Step? && s.ups[a.u].pc.Copy? {
      CopyTouchesKinOnly(s, a, F);
    } else {
      OtherStepsTouchNothing(s, a, F);
    }
  }

  ghost predicate NoEncrypted(s: State) {
    forall u :: u in s.ups ==> s.ups[u].job.mode != Encrypted
  }

  lemma StepKeepsNoEncrypted(d: Discipline, s: State, a: Action)
    requires d.plaintextOnly && NoEncrypted(s) && Enabled(s, a) && Respects(d, s, a)
    ensures NoEncrypted(Apply(s, a))
  {
    if a.Step? {
      StepShape(s, a.u, a.ok, a.k);
      hide DoStep;
    }
  }

  /** Between the existence check and the link. */
  predicate Storing(pc: Pc) {
    pc.Size? || pc.MkDirs? || pc.Open? || pc.Copy? || pc.Flush? || pc.Link?
  }

  ghost predicate Captures(s: State, u: nat, F: Path) {
    u in s.ups && s.ups[u].job.Normal() && s.ups[u].job.final == F
  }

  /** One writer for `F`, and none past the existence check once `F` is bound. */
  ghost predicate OneWriterInv(s: State, F: Path) {
    && (forall u, v :: Captures(s, u, F) && s.ups[u].Active() && Captures(s, v, F) && s.ups[v].Active() ==> u == v)
    && (forall u :: Captures(s, u, F) && Storing(s.ups[u].pc) ==> F !in s.names)
  }

  ghost predicate PlainNames(s: State) {
    forall u :: u in s.ups && s.ups[u].job.Normal() ==> !IsStagingName(s.ups[u].job.final)
  }

  /** No store to `F` gets past the existence check once `F` is bound: one writer, and, for a
      name the encrypted store may write, a check that works. */
  predicate Guarded(d: Discipline, F: Path) {
    d.oneWriter && (IsAgeName(F) ==> d.checksWork || d.plaintextOnly)
  }

  /** What immutability of `F` takes: a guarded name, and no capture named like a staging file. */
  predicate KeepsBytes(d: Discipline, F: Path) {
    Guarded(d, F) && d.plainNames
  }

  /** What prefix growth of `F` takes: no encrypted upload to it, or a guarded name. */
  predicate KeepsPrefix(d: Discipline, F: Path) {
    !IsAgeName(F) || d.plaintextOnly || Guarded(d, F)
  }

  lemma StepKeepsPlainNames(d: Discipline, s: State, a: Action)
    requires d.plainNames && PlainNames(s) && Enabled(s, a) && Respects(d, s, a)
    ensures PlainNames(Apply(s, a))
  {
    hide IsStagingName;
    if a.Step? {
      StepShape(s, a.u, a.ok, a.k);
      hide DoStep;
    }
  }

  /** A name is bound by the link of an upload to it, and by nothing else. */
  lemma OnlyLinkBinds(s: State, a: Action, F: Path)
    requires KinInv(s) && Enabled(s, a) && CaptureName(F) && F !in s.names && F in Apply(s, a).names
    ensures a.Step? && Captures(s, a.u, F) && s.ups[a.u].pc.Link? && Apply(s, a) == DoLink(s, a.u, a.ok)
    ensures Apply(s, a).ups[a.u].pc.Unlink?
  {
    hide WfJob, Kin, WfPath, StagingPath, CaptureName, ProperPrefixes;
    assert a.Step?;
    var j := s.ups[a.u].job;
    CaptureFacts(F, j);
    StepShape(s, a.u, a.ok, a.k);
    assert j.final == F;
    CaptureIsNoProbe(F, j);
  }

  lemma CaptureIsNoProbe(F: Path, j: Job)
    requires CaptureName(F) && WfJob(j) && j.final == F
    ensures j.Normal()
  {
  }

  /** The check lets an upload to `F` through only if `F` is not bound. */
  lemma CheckGuards(d: Discipline, s: State, a: Action, F: Path)
    requires KinInv(s) && Enabled(s, a) && Respects(d, s, a) && Guarded(d, F)
    requires d.plaintextOnly ==> NoEncrypted(s)
    requires a.Step? && Captures(s, a.u, F) && s.ups[a.u].pc.Check? && Storing(Apply(s, a).ups[a.u].pc)
    ensures F !in Apply(s, a).names
  {
    assert WfJob(s.ups[a.u].job);
  }

  lemma StepKeepsOneWriter(d: Discipline, s: State, a: Action, F: Path)
    requires KinInv(s) && Enabled(s, a) && Respects(d, s, a) && Guarded(d, F) && CaptureName(F)
    requires d.plaintextOnly ==> NoEncrypted(s)
    requires OneWriterInv(s, F)
    ensures OneWriterInv(Apply(s, a), F)
  {
    hide WfJob, Kin, WfPath, StagingPath, CaptureName, IsStagingName;
    if a.Step? {
      UploadStepKeepsOneWriter(d, s, a, F);
    } else {
      hide KinInv, ProperPrefixes;
      assert forall u :: Captures(s, u, F) && s.ups[u].Active() ==> BusyWith(s, F);
    }
  }

  lemma UploadStepKeepsOneWriter(d: Discipline, s: State, a: Action, F: Path)
    requires KinInv(s) && Enabled(s, a) && Respects(d, s, a) && Guarded(d, F) && CaptureName(F)
    requires d.plaintextOnly ==> NoEncrypted(s)
    requires OneWriterInv(s, F) && a.Step?
    ensures OneWriterInv(Apply(s, a), F)
  {
    hide WfJob, Kin, WfPath, StagingPath, CaptureName, IsStagingName;
    var t := Apply(s, a);
    if F !in s.names && F in t.names {
      OnlyLinkBinds(s, a, F);
    }
    if s.ups[a.u].pc.Check? && Captures(s, a.u, F) && Storing(t.ups[a.u].pc) {
      CheckGuards(d, s, a, F);
    }
    StepShape(s, a.u, a.ok, a.k);
    StepStaysStoring(s, a);
    OneUploadMoves(s, t, a.u, F);
  }

  lemma OneUploadMoves(s: State, t: State, u: nat, F: Path)
    requires OneWriterInv(s, F) && u in s.ups && u in t.ups && s.ups[u].Active()
    requires t.ups == s.ups[u := t.ups[u]] && t.ups[u].job == s.ups[u].job
    requires Captures(s, u, F) && Storing(t.ups[u].pc) ==> Storing(s.ups[u].pc) || F !in t.names
    requires F !in s.names && F in t.names ==> Captures(s, u, F) && !Storing(t.ups[u].pc)
    ensures OneWriterInv(t, F)
  {
    forall v, w | Captures(t, v, F) && t.ups[v].Active() && Captures(t, w, F) && t.ups[w].Active()
      ensures v == w
    {
      assert Captures(s, v, F) && Captures(s, w, F);
    }
    forall v | Captures(t, v, F) && Storing(t.ups[v].pc)
      ensures F !in t.names
    {
      assert Captures(s, v, F);
    }
  }

  lemma StepStaysStoring(s: State, a: Action)
    requires Enabled(s, a) && a.Step?
    ensures Storing(Apply(s, a).ups[a.u].pc) && s.ups[a.u].job.Normal() ==>
        Storing(s.ups[a.u].pc) || s.ups[a.u].pc.Check?
    ensures Apply(s, a).ups[a.u].Active() ==> s.ups[a.u].Active()
  {
  }

  /** An encrypted upload of the kin of `F` is an upload to `F`. */
  lemma EncryptedKin(j: Job, F: Path)
    requires WfJob(j) && j.mode == Encrypted && Kin(j.final) == F
    ensures j.final == F && IsAgeName(F)
  {
    AgeNameIsPlain(j.final);
    KinOfPlainName(j.final);
  }

  lemma StepKeepsPrefix(d: Discipline, s: State, a: Action, F: Path)
    requires KinInv(s) && KeepsPrefix(d, F) && Enabled(s, a)
    requires d.plaintextOnly ==> NoEncrypted(s)
    requires Guarded(d, F) ==> OneWriterInv(s, F)
    requires CaptureName(F) && F in s.names && a != SweepFile(F)
    ensures Grown(s, Apply(s, a), F)
  {
    StepTouchesKinOnly(s, a, F);
    if TouchedBy(s, a, F) && s.ups[a.u].job.mode == Encrypted {
      EncryptedKin(s.ups[a.u].job, F);
      assert Captures(s, a.u, F) && Storing(s.ups[a.u].pc);
      assert false;
    }
  }

  lemma StepKeepsBytes(d: Discipline, s: State, a: Action, F: Path)
    requires KinInv(s) && KeepsBytes(d, F) && Enabled(s, a)
    requires OneWriterInv(s, F) && PlainNames(s)
    requires CaptureName(F) && F in s.names && a != SweepFile(F)
    ensures Kept(s, Apply(s, a), F)
  {
    StepTouchesKinOnly(s, a, F);
    if TouchedBy(s, a, F) {
      KinOfPlainName(s.ups[a.u].job.final);
      assert Captures(s, a.u, F) && Storing(s.ups[a.u].pc);
      assert false;
    }
  }

  /** Everything the discipline keeps about `F`. */
  ghost predicate StoreInv(d: Discipline, s: State, F: Path) {
    && KinInv(s)
    && (d.plaintextOnly ==> NoEncrypted(s))
    && (d.plainNames ==> PlainNames(s))
    && (Guarded(d, F) ==> OneWriterInv(s, F))
  }

  lemma StepKeepsInv(d: Discipline, s: State, a: Action, F: Path)
    requires StoreInv(d, s, F) && CaptureName(F) && Enabled(s, a) && Respects(d, s, a)
    ensures StoreInv(d, Apply(s, a), F)
  {
    StepKeepsKin(s, a);
    if d.plaintextOnly {
      StepKeepsNoEncrypted(d, s, a);
    }
    if d.plainNames {
      StepKeepsPlainNames(d, s, a);
    }
    if Guarded(d, F) {
      StepKeepsOneWriter(d, s, a, F);
    }
  }

  lemma {:induction false} RunKeepsInv(d: Discipline, s: State, actions: seq<Action>, F: Path)
    requires StoreInv(d, s, F) && CaptureName(F) && Valid(d, s, actions)
    ensures StoreInv(d, Exec(s, actions), F)
    decreases |actions|
  {
    if actions != [] {
      StepKeepsInv(d, s, actions[0], F);
      RunKeepsInv(d, Apply(s, actions[0]), actions[1..], F);
    }
  }

  lemma {:induction false} RunKeepsBytes(d: Discipline, s: State, actions: seq<Action>, F: Path)
    requires StoreInv(d, s, F) && KeepsBytes(d, F) && Valid(d, s, actions)
    requires CaptureName(F) && F in s.names && SweepFile(F) !in actions
    ensures Kept(s, Exec(s, actions), F)
    decreases |actions|
  {
    if actions != [] {
      StepKeepsInv(d, s, actions[0], F);
      StepKeepsBytes(d, s, actions[0], F);
      RunKeepsBytes(d, Apply(s, actions[0]), actions[1..], F);
    }
  }

  lemma {:induction false} RunKeepsPrefix(d: Discipline, s: State, actions: seq<Action>, F: Path)
    requires StoreInv(d, s, F) && KeepsPrefix(d, F) && Valid(d, s, actions)
    requires CaptureName(F) && F in s.names && SweepFile(F) !in actions
    ensures Grown(s, Exec(s, actions), F)
    decreases |actions|
  {
    if actions != [] {
      StepKeepsInv(d, s, actions[0], F);
      StepKeepsPrefix(d, s, actions[0], F);
      RunKeepsPrefix(d, Apply(s, actions[0]), actions[1..], F);
    }
  }

  /** `before` reaches a state with `F` finalized, and `after` goes on from there without the sweep
      removing `F`. */
  ghost predicate Continues(d: Discipline, before: seq<Action>, after: seq<Action>, F: Path) {
    && Valid(d, EmptyArchive, before) && IsFinalized(Exec(EmptyArchive, before), F)
    && Valid(d, Exec(EmptyArchive, before), after) && SweepFile(F) !in after
  }

  /** In every run from the empty archive, finalized `F` keeps its bytes until swept. */
  ghost predicate Immutable(d: Discipline, F: Path) {
    forall before, after :: Continues(d, before, after, F) ==>
      Kept(Exec(EmptyArchive, before), Exec(Exec(EmptyArchive, before), after), F)
  }

  /** In every run from the empty archive, finalized `F` stays bound and only grows. */
  ghost predicate GrowsOnly(d: Discipline, F: Path) {
    forall before, after :: Continues(d, before, after, F) ==>
      Grown(Exec(EmptyArchive, before), Exec(Exec(EmptyArchive, before), after), F)
  }

  lemma DisciplineKeepsBytes(d: Discipline, F: Path)
    requires CaptureName(F) && KeepsBytes(d, F)
    ensures Immutable(d, F)
  {
    forall before, after | Continues(d, before, after, F)
      ensures Kept(Exec(EmptyArchive, before), Exec(Exec(EmptyArchive, before), after), F)
    {
      RunKeepsInv(d, EmptyArchive, before, F);
      RunKeepsBytes(d, Exec(EmptyArchive, before), after, F);
    }
  }

  lemma DisciplineKeepsPrefix(d: Discipline, F: Path)
    requires CaptureName(F) && KeepsPrefix(d, F)
    ensures GrowsOnly(d, F)
  {
    forall before, after | Continues(d, before, after, F)
      ensures Grown(Exec(EmptyArchive, before), Exec(Exec(EmptyArchive, before), after), F)
    {
      RunKeepsInv(d, EmptyArchive, before, F);
      RunKeepsPrefix(d, Exec(EmptyArchive, before), after, F);
    }
  }
}
