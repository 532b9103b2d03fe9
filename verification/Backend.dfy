/** `put` and `mkd` in front of the store (src/backend.rs): which file an authenticated request
    works on, and what else it leaves alone. */
module Backend {
  import opened Append
  import opened Options
  import opened Paths
  import opened Containment
  import opened Accounts
  import opened Store
  import opened StoreImmutability
  import opened StoreKin
  import opened StoreSubtrees
  import opened StoreStream

  datatype Op = Get | Put | ListOp | Metadata | Cwd | MkdOp | Del | Rmd | Rename

  predicate CapabilityAllowed(role: Role, op: Op) {
    match role
    case Uploader(_) => op in {Put, MkdOp, ListOp, Metadata, Cwd}
    case Viewer(_) => op in {Get, ListOp, Metadata, Cwd}
  }

  function UserView(role: Role): ScopeMap {
    match role
    case Uploader(home) => Single(home)
    case Viewer(scope) => scope
  }

  datatype PutError = Denied | BadName | Unresolved(error: PathError)

  /** A capture to store, or a probe to drop into the quarantine below `home`. */
  datatype PutTarget = Capture(mode: Mode, final: Path) | Probe(dir: seq<Comp>, name: string)

  /** `Path::file_name`: the last component, if it is a plain one. */
  function FileName(virt: seq<VirtualComp>): Option<string> {
    if virt != [] && virt[|virt| - 1].Normal? then Some(virt[|virt| - 1].name) else None
  }

  function PlanPut(role: Role, fs: Tree, virt: seq<VirtualComp>, start: nat,
                   encrypts: bool): Result<PutTarget, PutError> {
    if !CapabilityAllowed(role, Put) || role.Viewer? then Failure(Denied)
    else
      match FileName(virt)
      case None => Failure(BadName)
      case Some(name) =>
        if IsTestFile(name) then Success(Probe(role.home + [Name(QUARANTINE_DIR)], name))
        else
          match Resolve(fs, UserView(role), virt)
          case Failure(e) => Failure(Unresolved(e))
          case Success(p) =>
            if !encrypts then Success(Capture(Plain, p))
            else if start != 0 then Failure(Denied)
            else Success(Capture(Encrypted, AgeSuffix(p)))
  }

  function PlanMkd(role: Role, fs: Tree, virt: seq<VirtualComp>): Result<Path, PutError> {
    if !CapabilityAllowed(role, MkdOp) then Failure(Denied)
    else
      match Resolve(fs, UserView(role), virt)
      case Failure(e) => Failure(Unresolved(e))
      case Success(p) => Success(p)
  }

  /** The archive as a tree. */
  function TreeOf(s: State): Tree {
    TreeFrom(s.names.Keys, s.dirs)
  }

  /** The upload of a planned put. */
  function PutJob(t: PutTarget, start: nat, input: seq<Byte>, output: seq<Byte>): Job {
    match t
    case Capture(mode, final) =>
      Job(mode, final, if mode == Encrypted then 0 else start, input, if mode == Encrypted then output else input)
    case Probe(dir, name) => Job(Quarantine, Lexical([], dir) + [name], 0, input, input)
  }

  predicate WfVirtual(virt: seq<VirtualComp>) {
    forall i :: 0 <= i < |virt| && virt[i].Normal? ==> virt[i].name != ""
  }

  predicate WfHome(home: seq<Comp>) {
    forall i :: 0 <= i < |home| && home[i].Name? ==> home[i].name != ""
  }

  predicate Named(p: Path) {
    forall i :: 0 <= i < |p| ==> p[i] != ""
  }

  lemma {:induction false} NormalsNamed(virt: seq<VirtualComp>)
    requires WfVirtual(virt)
    ensures Named(Normals(virt))
    ensures FileName(virt).Some? ==> Normals(virt) != [] && Last(Normals(virt)) == FileName(virt).value
  {
    if virt != [] {
      NormalsNamed(virt[1..]);
      assert |virt| > 1 ==> virt[1..][|virt| - 2] == virt[|virt| - 1];
    }
  }

  lemma {:induction false} LexicalNamed(at: Path, home: seq<Comp>)
    requires Named(at) && WfHome(home)
    ensures Named(Lexical(at, home))
    decreases |home|
  {
    if home != [] {
      LexicalNamed(match home[0] case Up => Dir(at) case Name(n) => at + [n], home[1..]);
    }
  }

  /** In an archive without links, whatever resolves against a home lies where the home lies. */
  lemma ResolvedUnderHome(s: State, home: seq<Comp>, names: Path)
    requires Contained(TreeOf(s), home, home + Names(names)).Success?
    ensures Contained(TreeOf(s), home, home + Names(names)) == Success(Lexical([], home) + names)
  {
    ResolvedExactly(TreeOf(s), home, names);
  }

  /** An accepted put is for the one place its virtual path names: a probe in the quarantine, or
      a capture below the home. */
  lemma PlannedTarget(s: State, home: seq<Comp>, virt: seq<VirtualComp>, start: nat, encrypts: bool)
    requires WfHome(home) && WfVirtual(virt)
    requires PlanPut(Uploader(home), TreeOf(s), virt, start, encrypts).Success?
    ensures Normals(virt) != [] && Named(Lexical([], home)) && Named(Normals(virt))
    ensures
      var t := PlanPut(Uploader(home), TreeOf(s), virt, start, encrypts).value;
      var p := Lexical([], home) + Normals(virt);
      if IsTestFile(Last(p)) then t == Probe(home + [Name(QUARANTINE_DIR)], Last(p))
      else if encrypts then start == 0 && t == Capture(Encrypted, AgeSuffix(p))
      else t == Capture(Plain, p)
  {
    NormalsNamed(virt);
    LexicalNamed([], home);
    assert Last(Lexical([], home) + Normals(virt)) == Last(Normals(virt));
    hide WfVirtual, IsTestFile, TreeFrom, AgeSuffix, Lexical;
    if !IsTestFile(Last(Normals(virt))) {
      ResolvedUnderHome(s, home, Normals(virt));
    }
  }

  lemma CaptureFits(home: Path, p: Path, start: nat, input: seq<Byte>, output: seq<Byte>)
    requires WfPath(p) && home <= p && home != p
    ensures Below(home, p) && Below(home, AgeSuffix(p))
    ensures !IsTestFile(Last(p)) ==> WfJob(Job(Plain, p, start, input, input))
    ensures !IsTestFile(Last(p)) ==> WfJob(Job(Encrypted, AgeSuffix(p), 0, input, output))
  {
    AgeSuffixNames(p);
    assert Dir(AgeSuffix(p)) == Dir(p);
    BelowByDirectory(home, p, AgeSuffix(p));
  }

  lemma ProbeFits(home: seq<Comp>, name: string, input: seq<Byte>)
    requires Named(Lexical([], home)) && name != ""
    ensures
      var q := Lexical([], home + [Name(QUARANTINE_DIR)]) + [name];
      && q == Lexical([], home) + [QUARANTINE_DIR, name] && Below(Lexical([], home), q)
      && (IsTestFile(name) ==> WfJob(Job(Quarantine, q, 0, input, input)))
  {
    assert home + [Name(QUARANTINE_DIR)] == home + Names([QUARANTINE_DIR]);
    LexicalNames([], home, [QUARANTINE_DIR]);
    var place := Lexical([], home);
    var q := place + [QUARANTINE_DIR, name];
    assert (place + [QUARANTINE_DIR]) + [name] == q;
    hide IsTestFile, Lexical;
    assert Last(q) == name && Last(Dir(q)) == QUARANTINE_DIR;
  }

  /** Whatever a camera puts ends up strictly below its own home: a capture at exactly the place
      its virtual path names, a probe in its quarantine; and the store gets a job it accepts. */
  lemma PutStaysHome(s: State, home: seq<Comp>, virt: seq<VirtualComp>, start: nat, encrypts: bool,
                     input: seq<Byte>, output: seq<Byte>)
    requires WfHome(home) && WfVirtual(virt)
    requires PlanPut(Uploader(home), TreeOf(s), virt, start, encrypts).Success?
    ensures
      var t := PlanPut(Uploader(home), TreeOf(s), virt, start, encrypts).value;
      var place := Lexical([], home);
      var job := PutJob(t, start, input, output);
      && Below(place, job.final) && WfJob(job)
      && (t.Capture? ==> job.final == if encrypts then AgeSuffix(place + Normals(virt)) else place + Normals(virt))
      && (t.Probe? <==> Normals(virt) != [] && IsTestFile(Last(Normals(virt))))
      && (t.Probe? ==> job.final == place + [QUARANTINE_DIR, t.name])
  {
    PlannedTarget(s, home, virt, start, encrypts);
    var place := Lexical([], home);
    var p := place + Normals(virt);
    assert Last(p) == Last(Normals(virt)) && Last(p) != "";
    hide PlanPut, TreeFrom, WfVirtual, IsTestFile, AgeSuffix, WfJob, WfPath, Below, Lexical;
    CaptureFits(place, p, start, input, output);
    ProbeFits(home, Last(p), input);
  }

  /** How the job comes from the target. */
  lemma PlanIsJob(s: State, home: seq<Comp>, virt: seq<VirtualComp>, start: nat, encrypts: bool,
                  input: seq<Byte>, output: seq<Byte>)
    requires PlanPut(Uploader(home), TreeOf(s), virt, start, encrypts).Success?
    ensures
      var t := PlanPut(Uploader(home), TreeOf(s), virt, start, encrypts).value;
      var job := PutJob(t, start, input, output);
      && job.input == input && (job.Normal() <==> t.Capture?) && (!job.Normal() ==> job.start == 0)
      && (t.Capture? ==> job.final == t.final && job.mode == t.mode)
  {
    hide Resolve, TreeFrom, AgeSuffix, IsTestFile, Lexical;
  }

  /** The job of an accepted put: a probe is stored as it arrives in the quarantine of the home, a
      capture as its ciphertext under the `.age` name, from offset 0 on, or as it arrives under its own
      name. */
  lemma PlannedJob(s: State, home: seq<Comp>, virt: seq<VirtualComp>, start: nat, encrypts: bool,
                   input: seq<Byte>, output: seq<Byte>)
    requires WfHome(home) && WfVirtual(virt)
    requires PlanPut(Uploader(home), TreeOf(s), virt, start, encrypts).Success?
    ensures
      var p := Lexical([], home) + Normals(virt);
      PutJob(PlanPut(Uploader(home), TreeOf(s), virt, start, encrypts).value, start, input, output)
      == if IsTestFile(Last(p)) then
           Job(Quarantine, Lexical([], home) + [QUARANTINE_DIR, Last(p)], 0, input, input)
         else if encrypts then Job(Encrypted, AgeSuffix(p), 0, input, output)
         else Job(Plain, p, start, input, input)
    ensures encrypts && !IsTestFile(Last(Lexical([], home) + Normals(virt))) ==> start == 0
    ensures Normals(virt) != []
  {
    PlannedTarget(s, home, virt, start, encrypts);
    var p := Lexical([], home) + Normals(virt);
    assert Last(p) == Last(Normals(virt)) && Last(p) != "";
    hide PlanPut, TreeFrom, WfVirtual, IsTestFile, AgeSuffix, WfJob, WfPath, Below, Lexical;
    ProbeFits(home, Last(p), input);
  }

  /** When a put is accepted and how else it is refused: nobody but an uploader may put; the last
      component must be a name; a probe is always taken; a capture is taken exactly if the home is
      there and the path does not climb, a resumed upload only where nothing is encrypted. */
  lemma PutAccepted(s: State, role: Role, virt: seq<VirtualComp>, start: nat, encrypts: bool)
    ensures
      var plan := PlanPut(role, TreeOf(s), virt, start, encrypts);
      match role
      case Viewer(_) => plan == Failure(Denied)
      case Uploader(home) =>
        if virt == [] || !virt[|virt| - 1].Normal? then plan == Failure(BadName)
        else if IsTestFile(virt[|virt| - 1].name) then plan.Success?
        else if AnyClimbs(virt) then plan == Failure(Unresolved(Traversal))
        else if Canonicalize(TreeOf(s), home).None? then plan == Failure(Unresolved(NotFound))
        else if encrypts && start != 0 then plan == Failure(Denied)
        else plan.Success?
  {
    if role.Uploader? {
      hide IsTestFile, TreeFrom, Canonicalize, Lexical, Normals, AnyClimbs, Contained;
      assert LinkFree(TreeOf(s)) by {
        ArchiveHasNoLinks(s);
      }
      ResolvedExactly(TreeOf(s), role.home, Normals(virt));
    }
  }

  /** A directory is made for an uploader whose home is there, on a path that does not climb. */
  lemma MkdAccepted(s: State, role: Role, virt: seq<VirtualComp>)
    ensures
      var plan := PlanMkd(role, TreeOf(s), virt);
      match role
      case Viewer(_) => plan == Failure(Denied)
      case Uploader(home) =>
        if AnyClimbs(virt) then plan == Failure(Unresolved(Traversal))
        else if Canonicalize(TreeOf(s), home).None? then plan == Failure(Unresolved(NotFound))
        else plan == Success(Lexical([], home) + Normals(virt))
  {
    if role.Uploader? {
      hide TreeFrom, Canonicalize, Lexical, Normals, AnyClimbs, Contained;
      assert LinkFree(TreeOf(s)) by {
        ArchiveHasNoLinks(s);
      }
      ResolvedExactly(TreeOf(s), role.home, Normals(virt));
    }
  }

  lemma ArchiveHasNoLinks(s: State)
    ensures LinkFree(TreeOf(s))
  {
  }

  /** Nobody may delete, remove directories or rename; only uploaders write, only viewers download. */
  lemma Capabilities(home: seq<Comp>, scope: ScopeMap, op: Op)
    ensures CapabilityAllowed(Uploader(home), op) && !CapabilityAllowed(Viewer(scope), op) <==> op.Put? || op.MkdOp?
    ensures CapabilityAllowed(Viewer(scope), op) && !CapabilityAllowed(Uploader(home), op) <==> op.Get?
    ensures !CapabilityAllowed(Viewer(scope), op) && !CapabilityAllowed(Uploader(home), op) <==>
              op.Del? || op.Rmd? || op.Rename?
  {
  }

  // ------------------------------------------------------------------ what a request leaves alone

  /** All names but those of the kin of `final`, all homes apart from `home`, and all finalized
      captures the discipline protects are as they were. */
  ghost predicate OthersKept(d: Discipline, s: State, t: State, home: Path, final: Path) {
    && (forall p :: Kin(p) != Kin(final) ==> SameFile(s, t, p))
    && (forall other: Path :: !(home <= other) && !(other <= home) ==> SameSubtree(s, t, other))
    && (forall F :: StoreInv(d, s, F) && KeepsBytes(d, F) && CaptureName(F) && F in s.names ==> Kept(s, t, F))
  }

  lemma PutKeepsOthers(d: Discipline, s: State, trace: seq<Action>, u: nat, job: Job, home: Path)
    requires KinInv(s) && Valid(d, s, trace) && OwnRun(trace, u, job) && Below(home, job.final)
    ensures OthersKept(d, s, Exec(s, trace), home, job.final)
  {
    forall p | Kin(p) != Kin(job.final)
      ensures SameFile(s, Exec(s, trace), p)
    {
      OwnRunKeepsOthers(d, s, trace, u, job, p);
    }
    forall other: Path | !(home <= other) && !(other <= home)
      ensures SameSubtree(s, Exec(s, trace), other)
    {
      if other <= job.final {
        PrefixesCompare(home, other, job.final);
        assert false;
      }
      OwnRunKeepsSubtree(d, s, trace, u, job, other);
    }
    forall F | StoreInv(d, s, F) && KeepsBytes(d, F) && CaptureName(F) && F in s.names
      ensures Kept(s, Exec(s, trace), F)
    {
      OwnRunKeepsFinalized(d, s, trace, u, job, F);
    }
  }

  // ------------------------------------------------------------------ the requests

  /** `put`: a refused request changes nothing; any other is a run of the store on the planned job
      and nothing else, with the outcome that store has on its own. */
  method PutFile(disk: Disk, role: Role, virt: seq<VirtualComp>, start: nat, input: seq<Byte>, output: seq<Byte>,
                 encrypts: bool, io: StoreStream.Io, u: nat, ghost d: Discipline)
    returns (r: Result<Outcome, PutError>, ghost trace: seq<Action>)
    requires WfVirtual(virt) && u !in disk.ups
    requires role.Uploader? ==> WfHome(role.home)
    requires
      var plan := PlanPut(role, TreeOf(disk.Snapshot()), virt, start, encrypts);
      plan.Success? ==>
        && Respects(d, disk.Snapshot(), Begin(u, PutJob(plan.value, start, input, output)))
        && (d.checksWork && plan.value.Capture? && plan.value.mode.Encrypted? ==> !io.check)
    modifies disk
    ensures Valid(d, old(disk.Snapshot()), trace) && Exec(old(disk.Snapshot()), trace) == disk.Snapshot()
    ensures r.Success? && r.value.Stored? ==>
      && role.Uploader? && Normals(virt) != [] && r.value.n == |input|
      && PutLeaves(old(disk.Snapshot()), disk, Lexical([], role.home), Lexical([], role.home) + Normals(virt),
                   start, input, output, encrypts, !io.unlink, u)
    ensures
      var plan := PlanPut(role, TreeOf(old(disk.Snapshot())), virt, start, encrypts);
      if plan.Failure? then r == Failure(plan.error) && trace == []
      else
        var job := PutJob(plan.value, start, input, output);
        && OwnRun(trace, u, job) && r == Success(LoneOutcome(old(disk.Snapshot()), job, io))
        && disk.Runs(u, job, Done(r.value))
        && (r.value.Stored? && plan.value.Capture? ==> disk.Finished(old(disk.Snapshot()), job, u))
        && (r.value.Stored? && plan.value.Probe? ==> disk.FileIs(job.final, Cells(input, u, 0, |input|)))
        && (if plan.value.Capture? then disk.OnlyNames(old(disk.names), plan.value.final, r.value)
            else disk.names - {job.final} == old(disk.names) - {job.final})
        && (plan.value.Capture? && !io.check && Exists(old(disk.Snapshot()), plan.value.final) ==>
              r.value == Failed(Finalized) && disk.SameFiles(old(disk.names), old(disk.inodes)))
        && (KinInv(old(disk.Snapshot())) ==>
              OthersKept(d, old(disk.Snapshot()), disk.Snapshot(), Lexical([], role.home), job.final))
  {
    var plan := PlanPut(role, TreeFrom(disk.names.Keys, disk.dirs), virt, start, encrypts);
    if plan.Failure? {
      return Failure(plan.error), [];
    }
    PutStaysHome(disk.Snapshot(), role.home, virt, start, encrypts, input, output);
    PlanIsJob(disk.Snapshot(), role.home, virt, start, encrypts, input, output);
    PlannedJob(disk.Snapshot(), role.home, virt, start, encrypts, input, output);
    hide PutJob, Resolve, PlanPut, WfJob, Respects, Valid, Exec, IsTestFile, TreeFrom, Names, FileName, Lexical,
      CapabilityAllowed, AgeSuffix, WfPath, Normals, WfHome, WfVirtual, Exists, StagingPath, OwnRun, LoneOutcome,
      KinInv, OthersKept, Below;
    var home := Lexical([], role.home);
    var outcome;
    ghost var s := disk.Snapshot();
    var job := PutJob(plan.value, start, input, output);
    hide PutLeaves, JobLeaves;
    outcome, trace := StoreJob(disk, home, job, io, u, d);
    r := Success(outcome);
    if outcome.Stored? {
      LeavesByJob(s, disk, home, home + Normals(virt), start, input, output, encrypts, !io.unlink, u, job);
    }
  }

  /** What a finished put leaves, `p` being the place its virtual path names: a probe's bytes in the
      quarantine; the ciphertext, and nothing else, under the `.age` name; or the staged bytes, `start`
      of them, followed by the input. No staging name stays where its removal works. */
  ghost predicate PutLeaves(s: State, disk: Disk, home: Path, p: Path, start: nat, input: seq<Byte>,
                            output: seq<Byte>, encrypts: bool, unlinks: bool, u: nat)
    requires p != []
    reads disk
  {
    if IsTestFile(Last(p)) then
      disk.FileIs(home + [QUARANTINE_DIR, Last(p)], Cells(input, u, 0, |input|))
    else if encrypts then
      && start == 0 && AgeSuffix(p) !in s.names && disk.FileIs(AgeSuffix(p), Cells(output, u, 0, |output|))
      && (unlinks ==> StagingPath(AgeSuffix(p)) !in disk.names)
    else
      var staged := if StagingPath(p) in s.names then File(s, StagingPath(p)) else [];
      && |staged| == start && p !in s.names && disk.FileIs(p, staged + Cells(input, u, 0, |input|))
      && (unlinks ==> StagingPath(p) !in disk.names)
  }

  /** The same by the job. */
  ghost predicate JobLeaves(s: State, disk: Disk, job: Job, unlinks: bool, u: nat)
    reads disk
  {
    var S := StagingPath(job.final);
    if job.mode == Quarantine then disk.FileIs(job.final, Cells(job.input, u, 0, |job.input|))
    else
      var staged := if S in s.names && job.mode == Plain then File(s, S) else [];
      && job.final !in s.names && (unlinks ==> S !in disk.names) && (job.mode == Plain ==> |staged| == job.start)
      && disk.FileIs(job.final, staged + Cells(job.output, u, 0, |job.output|))
  }

  lemma LeavesByJob(s: State, disk: Disk, home: Path, p: Path, start: nat, input: seq<Byte>, output: seq<Byte>,
                    encrypts: bool, unlinks: bool, u: nat, job: Job)
    requires p != [] && (encrypts && !IsTestFile(Last(p)) ==> start == 0)
    requires job == if IsTestFile(Last(p)) then Job(Quarantine, home + [QUARANTINE_DIR, Last(p)], 0, input, input)
                    else if encrypts then Job(Encrypted, AgeSuffix(p), 0, input, output)
                    else Job(Plain, p, start, input, input)
    requires JobLeaves(s, disk, job, unlinks, u)
    ensures PutLeaves(s, disk, home, p, start, input, output, encrypts, unlinks, u)
  {
    hide IsTestFile, StagingPath, AgeSuffix, Cells;
    assert [] + Cells(output, u, 0, |output|) == Cells(output, u, 0, |output|);
  }

  /** The store the job is for. */
  method StoreJob(disk: Disk, home: Path, job: Job, io: StoreStream.Io, u: nat, ghost d: Discipline)
    returns (r: Outcome, ghost trace: seq<Action>)
    requires u !in disk.ups && WfJob(job) && Respects(d, disk.Snapshot(), Begin(u, job))
    requires Below(home, job.final) && (job.mode == Quarantine ==> job.start == 0)
    requires d.checksWork && job.mode == Encrypted ==> !io.check
    modifies disk
    ensures Valid(d, old(disk.Snapshot()), trace) && Exec(old(disk.Snapshot()), trace) == disk.Snapshot()
    ensures OwnRun(trace, u, job) && disk.Runs(u, job, Done(r))
    ensures r == LoneOutcome(old(disk.Snapshot()), job, io)
    ensures r.Stored? && job.Normal() ==> disk.Finished(old(disk.Snapshot()), job, u)
    ensures r.Stored? ==> JobLeaves(old(disk.Snapshot()), disk, job, !io.unlink, u)
    ensures if job.Normal() then disk.OnlyNames(old(disk.names), job.final, r)
            else disk.names - {job.final} == old(disk.names) - {job.final}
    ensures r.Stored? ==> r.n == |job.input|
    ensures r.Stored? && !job.Normal() ==> disk.FileIs(job.final, Cells(job.input, u, 0, |job.input|))
    ensures job.Normal() && !io.check && Exists(old(disk.Snapshot()), job.final) ==>
              r == Failed(Finalized) && disk.SameFiles(old(disk.names), old(disk.inodes))
    ensures KinInv(old(disk.Snapshot())) ==>
              OthersKept(d, old(disk.Snapshot()), disk.Snapshot(), home, job.final)
  {
    ghost var s := disk.Snapshot();
    hide KinInv, OthersKept, Below;
    match job {
      case Job(Plain, final, start, input, output) =>
        assert job == Job(Plain, final, start, input, input);
        hide WfJob, Respects, Valid, Exec, OwnRun, LoneOutcome, Exists, StagingPath;
        r, trace := disk.StoreStream(final, start, input, io, u, d);
      case Job(Encrypted, final, start, input, output) =>
        assert job == Job(Encrypted, final, 0, input, output);
        hide WfJob, Respects, Valid, Exec, OwnRun, LoneOutcome, Exists, StagingPath;
        r, trace := disk.StoreEncrypted(final, input, output, io, u, d);
      case Job(Quarantine, final, start, input, output) =>
        assert job == Job(Quarantine, final, 0, input, input);
        r, trace := disk.StoreProbe(final, input, io, u, d);
    }
    if KinInv(s) {
      PutKeepsOthers(d, s, trace, u, job, home);
    }
  }

  /** What `mkd` makes lies below the camera's home, or is the home. */
  lemma MkdStaysHome(s: State, home: seq<Comp>, virt: seq<VirtualComp>)
    requires PlanMkd(Uploader(home), TreeOf(s), virt).Success?
    ensures PlanMkd(Uploader(home), TreeOf(s), virt).value == Lexical([], home) + Normals(virt)
  {
    ResolvedUnderHome(s, home, Normals(virt));
  }

  /** `mkd`: a refused request changes nothing; any other makes the directory its names denote below
      the home, with its ancestors and nothing else, or, when the call fails, the first `made` of
      those ancestors. */
  method MakeDirectory(disk: Disk, role: Role, virt: seq<VirtualComp>, ok: bool, made: nat)
    returns (r: Result<bool, PutError>, ghost trace: seq<Action>)
    modifies disk`dirs
    ensures Exec(old(disk.Snapshot()), trace) == disk.Snapshot()
    ensures
      var plan := PlanMkd(role, TreeOf(old(disk.Snapshot())), virt);
      if plan.Failure? then r == Failure(plan.error) && trace == []
      else
        && plan.value == Lexical([], role.home) + Normals(virt)
        && r == Success(ok && Chain(plan.value) !! old(disk.names).Keys)
        && (r.value ==> trace == [Mkd(plan.value)])
        && (forall a :: a in trace ==> a.Mkd? && a.path <= plan.value)
        && disk.dirs == old(disk.dirs) + MadeDirs(old(disk.Snapshot()), plan.value, ok, made)
  {
    var plan := PlanMkd(role, TreeFrom(disk.names.Keys, disk.dirs), virt);
    if plan.Failure? {
      return Failure(plan.error), [];
    }
    MkdStaysHome(disk.Snapshot(), role.home, virt);
    hide PlanMkd, TreeFrom, Resolve, Lexical, Normals, Chain, MadeDirs;
    var done;
    done, trace := disk.MakeDirs(plan.value, ok, made);
    r := Success(done);
  }
}
