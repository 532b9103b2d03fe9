/** Building runs of the store: the pieces of an upload one after the other, from any state. */
module StoreWitness {
  import opened Append
  import opened Store

  const X: Byte := 120

  function PlainJob(p: Path, start: nat, input: seq<Byte>): Job {
    Job(Plain, p, start, input, input)
  }

  function EncryptedJob(p: Path, output: seq<Byte>): Job {
    Job(Encrypted, p, 0, [], output)
  }

  /** All names lie in one directory, whose ancestors are the only directories. */
  ghost predicate Flat(s: State, n: nat) {
    && (forall p :: p in s.dirs ==> |p| < n)
    && (forall p :: p in s.names ==> |p| == n)
  }

  /** The sweep removes no file in this run. */
  ghost predicate Unswept(run: seq<Action>) {
    forall a :: a in run ==> !a.SweepFile?
  }

  /** Extends a run by one action. */
  lemma Do(d: Discipline, o: State, run: seq<Action>, a: Action) returns (longer: seq<Action>, t: State)
    requires Valid(d, o, run)
    requires Enabled(Exec(o, run), a) && Respects(d, Exec(o, run), a)
    ensures Valid(d, o, longer) && Exec(o, longer) == t
    ensures t == Apply(Exec(o, run), a) && longer == run + [a]
    ensures Unswept(run) && !a.SweepFile? ==> Unswept(longer)
  {
    longer, t := run + [a], Apply(Exec(o, run), a);
    ExecSnoc(d, o, run, a);
  }

  function At(s: State, u: nat, job: Job, pc: Pc): State {
    s.(ups := s.ups[u := NewUpload(job).(pc := pc)])
  }

  /** Begins an upload and passes the existence check. */
  lemma PassCheck(d: Discipline, o: State, run: seq<Action>, u: nat, job: Job, ok: bool)
    returns (longer: seq<Action>, t: State)
    requires Valid(d, o, run)
    requires var s := Exec(o, run);
      && job.Normal() && Enabled(s, Begin(u, job)) && Respects(d, s, Begin(u, job))
      && (if ok then !Exists(s, job.final) else job.mode == Encrypted && !d.checksWork)
    ensures Valid(d, o, longer) && Exec(o, longer) == t
    ensures Unswept(run) ==> Unswept(longer)
    ensures t == At(Exec(o, run), u, job, if job.mode == Encrypted then MkDirs else Size)
  {
    hide WfJob;
    var s := Exec(o, run);
    longer, t := Do(d, o, run, Begin(u, job));
    assert t == At(s, u, job, Check);
    longer, t := Do(d, o, longer, Step(u, ok, 0));
  }

  lemma PassSize(d: Discipline, o: State, run: seq<Action>, u: nat, job: Job, s: State)
    returns (longer: seq<Action>, t: State)
    requires Valid(d, o, run) && Exec(o, run) == At(s, u, job, Size)
    requires job.start == ReportedSize(s, StagingPath(job.final), 0)
    ensures Valid(d, o, longer) && Exec(o, longer) == t
    ensures Unswept(run) ==> Unswept(longer)
    ensures t == At(s, u, job, MkDirs)
  {
    assert ReportedSize(At(s, u, job, Size), StagingPath(job.final), 0) == job.start;
    longer, t := Do(d, o, run, Step(u, true, 0));
  }

  /** Creates the parent directories and opens the staging file. */
  lemma MakeAndOpen(d: Discipline, o: State, run: seq<Action>, u: nat, job: Job, s: State)
    returns (longer: seq<Action>, t: State)
    requires Valid(d, o, run) && Exec(o, run) == At(s, u, job, MkDirs)
    requires job.Normal() && job.final != [] && Flat(s, |job.final|)
    ensures Valid(d, o, longer) && Exec(o, longer) == t
    ensures Unswept(run) ==> Unswept(longer)
    ensures StagingOpened(s, t, u, job) && longer == run + [Step(u, true, 0)] + [Step(u, true, 0)]
  {
    MakeEffect(s, u, job);
    StepAllowed(d, s, u, job, MkDirs);
    StepAllowed(d, CreateDirs(s, ProperPrefixes(job.final)), u, job, Open);
    OpenEffect(s, u, job);
    hide StagingOpened, DoOpen, At, ProperPrefixes, StagingPath, Flat, Apply, Enabled, Respects;
    longer, t := Do(d, o, run, Step(u, true, 0));
    longer, t := Do(d, o, longer, Step(u, true, 0));
  }

  lemma MakeEffect(s: State, u: nat, job: Job)
    requires job.Normal() && job.final != [] && Flat(s, |job.final|)
    ensures
      Apply(At(s, u, job, MkDirs), Step(u, true, 0)) == At(CreateDirs(s, ProperPrefixes(job.final)), u, job, Open)
  {
    var ds := ProperPrefixes(job.final);
    assert ds !! s.names.Keys;
    var before := At(s, u, job, MkDirs);
    assert before.ups[u] == Upload(job, MkDirs, 0, 0, false);
    hide ProperPrefixes, Flat;
    assert DoMkDirs(before, u, true, 0) == At(CreateDirs(s, ds), u, job, Open);
  }

  /** Both steps are ones the discipline has no say in. */
  lemma StepAllowed(d: Discipline, s: State, u: nat, job: Job, pc: Pc)
    requires pc.MkDirs? || pc.Open?
    ensures
      var t := At(s, u, job, pc);
      Enabled(t, Step(u, true, 0)) && Respects(d, t, Step(u, true, 0))
      && (pc.Open? ==> Apply(t, Step(u, true, 0)) == DoOpen(t, u, true))
  {
    assert At(s, u, job, pc).ups[u] == Upload(job, pc, 0, 0, false);
    hide DoOpen;
  }

  lemma OpenEffect(s: State, u: nat, job: Job)
    requires job.Normal() && job.final != [] && Flat(s, |job.final|)
    ensures
      var s2 := At(CreateDirs(s, ProperPrefixes(job.final)), u, job, Open);
      s2.ups[u].Active() && StagingOpened(s, DoOpen(s2, u, true), u, job)
  {
    SameDirectory(job.final);
    var ds := ProperPrefixes(job.final);
    assert forall p :: p in ds ==> |p| < |job.final|;
    assert Dir(StagingPath(job.final)) == job.final[..|job.final| - 1];
    hide StagingPath, ProperPrefixes;
    OpenAt(s, CreateDirs(s, ds), u, job);
  }

  lemma OpenAt(s: State, s1: State, u: nat, job: Job)
    requires job.Normal() && Flat(s1, |job.final|) && |StagingPath(job.final)| == |job.final|
      && s1 == s.(dirs := s1.dirs)
    requires Dir(StagingPath(job.final)) in s1.dirs
    ensures StagingOpened(s, DoOpen(At(s1, u, job, Open), u, true), u, job)
  {
    hide StagingPath;
    var S, s2 := StagingPath(job.final), At(s1, u, job, Open);
    assert S !in s2.dirs && s2.ups[u] == Upload(job, Open, 0, 0, false);
    var t := DoOpen(s2, u, true);
    var i := if S in s.names then s.names[S] else s.next;
    assert t.names == s.names[S := i];
    assert t.ups == s.ups[u := Upload(job, Copy, i, 0, false)];
    hide DoOpen, At;
  }

  /** `t` is `s` after upload `u` opened its staging file. */
  ghost predicate StagingOpened(s: State, t: State, u: nat, job: Job) {
    var S := StagingPath(job.final);
    var i := if S in s.names then s.names[S] else s.next;
    && Flat(t, |job.final|)
    && t.names == s.names[S := i]
    && t.inodes == s.inodes[i := if S in s.names && job.mode == Plain then Content(s, i) else []]
    && t.next == (if S in s.names then s.next else s.next + 1)
    && t.ups == s.ups[u := Upload(job, Copy, i, 0, false)]
    && t.binder == s.binder
  }

  /** A plaintext upload up to its open staging file. */
  lemma OpenPlain(d: Discipline, o: State, run: seq<Action>, u: nat, job: Job) returns (longer: seq<Action>, t: State)
    requires Valid(d, o, run)
    requires var s := Exec(o, run);
      && job.mode == Plain && Enabled(s, Begin(u, job)) && Respects(d, s, Begin(u, job))
      && job.final != [] && Flat(s, |job.final|) && job.final !in s.names
      && job.start == ReportedSize(s, StagingPath(job.final), 0)
    ensures Valid(d, o, longer) && Exec(o, longer) == t
    ensures Unswept(run) ==> Unswept(longer)
    ensures StagingOpened(Exec(o, run), t, u, job)
  {
    var s := Exec(o, run);
    longer, t := PassCheck(d, o, run, u, job, true);
    longer, t := PassSize(d, o, longer, u, job, s);
    longer, t := MakeAndOpen(d, o, longer, u, job, s);
  }

  /** The rest of an upload whose output is all copied, up to the link. */
  lemma LinkStaged(d: Discipline, o: State, run: seq<Action>, u: nat) returns (longer: seq<Action>, t: State)
    requires Valid(d, o, run)
    requires var s := Exec(o, run);
      && u in s.ups && s.ups[u].job.Normal() && s.ups[u].pc.Copy? && s.ups[u].pos == |s.ups[u].job.output|
      && StagingPath(s.ups[u].job.final) in s.names && !Exists(s, s.ups[u].job.final)
    ensures Valid(d, o, longer) && Exec(o, longer) == t
    ensures Unswept(run) ==> Unswept(longer)
    ensures t == Linked(Exec(o, run), u)
  {
    longer, t := FinishCopy(d, o, run, u);
    longer, t := Do(d, o, longer, Step(u, true, 0));
  }

  lemma CrashUpload(d: Discipline, o: State, run: seq<Action>, u: nat) returns (longer: seq<Action>, t: State)
    requires Valid(d, o, run) && u in Exec(o, run).ups && Exec(o, run).ups[u].Active()
    ensures Valid(d, o, longer) && Exec(o, longer) == t && t == Goto(Exec(o, run), u, Crashed)
  {
    longer, t := Do(d, o, run, Crash(u));
  }

  lemma UnlinkStaging(d: Discipline, o: State, run: seq<Action>, u: nat) returns (longer: seq<Action>, t: State)
    requires Valid(d, o, run) && u in Exec(o, run).ups && Exec(o, run).ups[u].pc.Unlink?
    ensures Valid(d, o, longer) && Exec(o, longer) == t
    ensures Unswept(run) ==> Unswept(longer)
    ensures
      var s := Exec(o, run);
      t == Goto(RemoveFile(s, StagingPath(s.ups[u].job.final)), u, Done(Stored(|s.ups[u].job.input|)))
  {
    longer, t := Do(d, o, run, Step(u, true, 0));
  }

  lemma FinishCopy(d: Discipline, o: State, run: seq<Action>, u: nat) returns (longer: seq<Action>, t: State)
    requires Valid(d, o, run)
    requires var s := Exec(o, run);
      && u in s.ups && s.ups[u].job.Normal() && s.ups[u].pc.Copy? && s.ups[u].pos == |s.ups[u].job.output|
    ensures Valid(d, o, longer) && Exec(o, longer) == t
    ensures Unswept(run) ==> Unswept(longer)
    ensures t == Goto(Exec(o, run), u, Link)
  {
    var s := Exec(o, run);
    longer, t := Do(d, o, run, Step(u, true, 0));
    if s.ups[u].job.mode == Plain {
      assert t == Goto(s, u, Flush);
      longer, t := Do(d, o, longer, Step(u, true, 0));
    }
  }

  function Linked(s: State, u: nat): State
    requires u in s.ups
  {
    var F := s.ups[u].job.final;
    s.(names := if StagingPath(F) in s.names then s.names[F := s.names[StagingPath(F)]] else s.names,
       ups := s.ups[u := s.ups[u].(pc := Unlink, linked := true)],
       binder := s.binder[F := u])
  }

  ghost predicate Idle(s: State, n: nat) {
    forall u :: u in s.ups ==> u < n && !s.ups[u].Active()
  }

  lemma IdleAllows(d: Discipline, s: State, u: nat, job: Job)
    requires Idle(s, u) && WfJob(job) && job.mode == Plain && (d.plainNames ==> !IsStagingName(job.final))
    ensures Enabled(s, Begin(u, job)) && Respects(d, s, Begin(u, job))
  {
  }

  /** A whole upload of nothing, up to the link. */
  lemma LinkEmpty(d: Discipline, o: State, run: seq<Action>, u: nat, job: Job) returns (longer: seq<Action>, t: State)
    requires Valid(d, o, run)
    requires var s := Exec(o, run);
      && job.mode == Plain && job.output == [] && Enabled(s, Begin(u, job)) && Respects(d, s, Begin(u, job))
      && job.final != [] && Flat(s, |job.final|) && job.final !in s.names
      && job.start == ReportedSize(s, StagingPath(job.final), 0)
    ensures Valid(d, o, longer) && Exec(o, longer) == t && EmptyLinked(Exec(o, run), t, u, job)
    ensures Unswept(run) ==> Unswept(longer)
  {
    hide WfJob, Apply, StagingPath, At, Valid;
    longer, t := OpenPlain(d, o, run, u, job);
    SameDirectory(job.final);
    longer, t := LinkStaged(d, o, longer, u);
  }

  ghost predicate EmptyLinked(s: State, t: State, u: nat, job: Job) {
    var S := StagingPath(job.final);
    var i := if S in s.names then s.names[S] else s.next;
    && Flat(t, |job.final|) && t.names == s.names[S := i][job.final := i]
    && Content(t, i) == (if S in s.names then Content(s, i) else [])
    && t.ups == s.ups[u := Upload(job, Unlink, i, 0, true)]
    && t.binder == s.binder[job.final := u]
  }

  lemma SameDirectory(F: Path)
    requires F != []
    ensures |StagingPath(F)| == |F| && StagingPath(F) != F && StagingPath(StagingPath(F)) !in {F, StagingPath(F)}
  {
    assert |Last(StagingPath(F))| > |Last(F)| && |Last(StagingPath(StagingPath(F)))| > |Last(StagingPath(F))|;
  }
}
