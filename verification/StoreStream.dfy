/** The stores as the code runs them, call by call, on a disk that is updated in place. Each
    method is proved to be a run of the step machine of module Store, so every theorem about
    runs is a theorem about this code. */
module StoreStream {
  import opened Append
  import opened Options
  import opened Store

  /** Which calls of one store fail (the copy at the first call after `copyFailsAt` bytes, if that is
      not negative; the creation of directories after `mkdirsDone` of them), what the system reports
      as the size of a directory, and how long the chunks are that arrive from the client. */
  datatype Io = Io(
    check: bool, size: bool, mkdirs: bool, open: bool, copyFailsAt: int, flush: bool, link: bool, unlink: bool,
    mkdirsDone: nat, dirSize: nat, chunk: nat -> nat)

  /** Nothing goes wrong up to the open, on a disk like `s`. */
  predicate Opens(s: State, job: Job, io: Io) {
    !io.mkdirs && !io.open && ProperPrefixes(job.final) !! s.names.Keys && job.Target() !in s.dirs
  }

  predicate Copies(job: Job, io: Io) {
    !(0 <= io.copyFailsAt <= |job.output|)
  }

  /** A file among the ancestors makes every call on the name fail. */
  predicate Blocked(s: State, p: Path) {
    !Exists(s, p) && !(ProperPrefixes(p) !! s.names.Keys)
  }

  /** What the plaintext store refuses before it opens the staging file, and how. */
  function OffsetRefusal(s: State, job: Job, io: Io): Option<StoreError> {
    var size := ReportedSize(s, StagingPath(job.final), io.dirSize);
    if io.check || Blocked(s, job.final) then Some(StoreError.Io)
    else if Exists(s, job.final) then Some(Finalized)
    else if io.size then Some(StoreError.Io)
    else if job.start < size then Some(StoreError.Overlap)
    else if job.start > size then Some(StoreError.Gap)
    else None
  }

  /** What a store that runs on its own against `s` returns. */
  function LoneOutcome(s: State, job: Job, io: Io): Outcome {
    var works := Opens(s, job, io) && Copies(job, io);
    match job.mode
    case Plain =>
      var refusal := OffsetRefusal(s, job, io);
      if refusal.Some? then Failed(refusal.value)
      else if works && !io.flush && !io.link then Stored(|job.input|)
      else Failed(StoreError.Io)
    case Encrypted =>
      if Exists(s, job.final) && (!io.check || (works && !io.link)) then Failed(Finalized)
      else if works && !io.link then Stored(|job.input|)
      else Failed(StoreError.Io)
    case Quarantine => if works then Stored(|job.input|) else Failed(StoreError.Io)
  }

  /** What a store does depends on the files and directories alone. */
  lemma OutcomeByFiles(s: State, t: State, job: Job, io: Io, e: StoreError)
    requires t == s.(ups := t.ups)
    ensures LoneOutcome(s, job, io) == LoneOutcome(t, job, io) && OffsetRefusal(s, job, io) == OffsetRefusal(t, job, io)
    ensures RefusedNames(s, job, io, e) == RefusedNames(t, job, io, e)
    ensures (Opens(s, job, io) <==> Opens(t, job, io)) && (Exists(s, job.final) <==> Exists(t, job.final))
    ensures LoneOutcome(s, job, io).Stored? ==> LoneOutcome(s, job, io).n == |job.input|
  {
  }

  lemma FreeAncestors(s: State, p: Path)
    ensures ProperPrefixes(p) !! s.names.Keys <==> forall q :: q in s.names ==> !(q < p)
  {
    forall q {
      ChainExactly(p, q);
    }
    hide ProperPrefixes;
  }

  /** A store succeeds exactly if every call it makes works, no file is in the way of its
      directories, no directory in the way of its file, nothing has a capture's name, and a
      plaintext upload starts where the staged bytes end. */
  lemma StoredExactly(s: State, job: Job, io: Io)
    ensures
      var S := StagingPath(job.final);
      LoneOutcome(s, job, io).Stored? <==>
        && !io.mkdirs && !io.open && !(0 <= io.copyFailsAt <= |job.output|)
        && (forall q :: q in s.names ==> !(q < job.final))
        && (if job.mode == Quarantine then job.final !in s.dirs
            else !io.link && job.final !in s.names && job.final !in s.dirs && S !in s.dirs)
        && (job.mode == Plain ==>
              && !io.check && !io.size && !io.flush
              && job.start == if S in s.names then |File(s, S)| else 0)
  {
    FreeAncestors(s, job.final);
    hide StagingPath, ProperPrefixes;
  }

  /** Why a store is refused: the name is taken, or the offset is before or after the end of what
      is staged; anything else is an error of the file system. */
  lemma RefusedExactly(s: State, job: Job, io: Io, e: StoreError)
    requires LoneOutcome(s, job, io) == Failed(e)
    ensures
      var S := StagingPath(job.final);
      var taken := job.final in s.names || job.final in s.dirs;
      var reached := !io.check && !io.size && !taken && forall q :: q in s.names ==> !(q < job.final);
      var size := if S in s.names then |File(s, S)| else if S in s.dirs then io.dirSize else 0;
      && (e == StoreError.Overlap <==> job.mode == Plain && reached && job.start < size)
      && (e == StoreError.Gap <==> job.mode == Plain && reached && job.start > size)
      && (e == Finalized ==> job.mode != Quarantine && taken)
      && (taken && job.mode != Quarantine && !io.check ==> e == Finalized)
      && (e == Finalized && io.check ==>
            && job.mode == Encrypted && !io.mkdirs && !io.open && !io.link
            && !(0 <= io.copyFailsAt <= |job.output|))
  {
    FreeAncestors(s, job.final);
    hide StagingPath, ProperPrefixes;
  }

  /** The names after the plaintext store refused: an overlap or a gap discards the staging file. */
  function RefusedNames(s: State, job: Job, io: Io, e: StoreError): map<Path, nat> {
    if (e.Overlap? || e.Gap?) && !io.unlink then s.names - {StagingPath(job.final)} else s.names
  }

  /** The directories create_dir_all of `p` adds. */
  function MadeDirs(s: State, p: Path, ok: bool, made: nat): set<Path> {
    if !(Chain(p) !! s.names.Keys) then {} else if ok then Chain(p) else FirstPrefixes(p, made)
  }

  /** create_dir_all of `p` makes `p` and all its ancestors or, where it fails, the first `made` of the
      ancestors; it makes nothing where a file is in the way. */
  lemma MadeDirsExactly(s: State, p: Path, ok: bool, made: nat, q: Path)
    ensures
      q in MadeDirs(s, p, ok, made) <==>
        && (forall f :: f in s.names ==> !(f <= p))
        && (if ok then q <= p else q < p && |q| < made)
  {
    forall f
      ensures f in Chain(p) <==> f <= p
      ensures f in FirstPrefixes(p, made) <==> f < p && |f| < made
    {
      ChainExactly(p, f);
      assert f <= p ==> f == p[..|f|];
    }
    hide Chain, FirstPrefixes;
  }

  lemma FirstIsChain(p: Path, k: nat, q: Path)
    requires p != [] && k > 0 && q == p[..if k < |p| then k - 1 else |p| - 1]
    ensures FirstPrefixes(p, k) == Chain(q) && Chain(q) <= Chain(p)
  {
    forall r
      ensures r in FirstPrefixes(p, k) <==> r in Chain(q)
    {
      if r in FirstPrefixes(p, k) {
        assert r == p[..|r|] && (r == q || r == q[..|r|]);
      }
      if r in Chain(q) {
        assert r == q[..|r|] == p[..|r|];
      }
    }
    forall r | r in Chain(q)
      ensures r in Chain(p)
    {
      assert r in FirstPrefixes(p, k);
    }
  }

  lemma NoProperPrefix(p: Path)
    requires p != []
    ensures p !in ProperPrefixes(p) && StagingPath(p) !in ProperPrefixes(p)
    ensures Dir(p) in ProperPrefixes(p) && Dir(StagingPath(p)) in ProperPrefixes(p)
  {
    assert |StagingPath(p)| == |p|;
    assert Dir(p) == p[..|p| - 1] == Dir(StagingPath(p));
  }

  lemma Extend(d: Discipline, o: State, trace: seq<Action>, a: Action, s: State, t: State, job: Job)
    requires Valid(d, o, trace) && Exec(o, trace) == s && t == Apply(s, a)
    requires Enabled(s, a) && Respects(d, s, a)
    requires a.Step? && OwnRun(trace, a.u, job)
    ensures Valid(d, o, trace + [a]) && Exec(o, trace + [a]) == t
    ensures OwnRun(trace + [a], a.u, job)
  {
    hide Apply, Enabled, Respects, Valid, Exec;
    ExecSnoc(d, o, trace, a);
  }

  lemma Start(d: Discipline, o: State, u: nat, job: Job)
    requires Enabled(o, Begin(u, job)) && Respects(d, o, Begin(u, job))
    ensures Valid(d, o, [Begin(u, job)]) && Exec(o, [Begin(u, job)]) == Apply(o, Begin(u, job))
    ensures OwnRun([Begin(u, job)], u, job)
  {
    RunOne(d, o, Begin(u, job));
  }

  lemma StagingDiffers(p: Path)
    ensures StagingPath(p) != p
  {
    assert |Last(StagingPath(p))| > |Last(p)|;
  }

  lemma CellsConcat(output: seq<Byte>, u: nat, m: nat, k: nat, start: seq<Cell>)
    requires m + k <= |output|
    ensures (start + Cells(output, u, 0, m)) + Cells(output, u, m, k) == start + Cells(output, u, 0, m + k)
  {
  }

  /** The names after the staging name `S` was bound, `final` linked to it and `S` dropped or not. */
  lemma LinkedNames(names0: map<Path, nat>, S: Path, final: Path, handle: nat, linked: bool, dropped: bool)
    requires S != final
    ensures
      var staged := names0[S := handle];
      var all := if linked then staged[final := handle] else staged;
      && (if dropped then all - {S} else all) - {S}
         == (if linked then (names0 - {S})[final := handle] else names0 - {S})
      && (S in (if dropped then all - {S} else all) <==> !dropped)
  {
  }

  class Disk {
    var names: map<Path, nat>
    var inodes: map<nat, seq<Cell>>
    var dirs: set<Path>
    var next: nat
    ghost var ups: map<nat, Upload>
    ghost var binder: map<Path, nat>

    ghost function Snapshot(): State
      reads this
    {
      State(names, inodes, dirs, next, ups, binder)
    }

    ghost predicate SameFiles(names0: map<Path, nat>, inodes0: map<nat, seq<Cell>>)
      reads this
    {
      names == names0 && inodes == inodes0
    }

    /** The inode holds these cells. */
    ghost predicate Holds(i: nat, c: seq<Cell>)
      reads this
    {
      i in inodes && inodes[i] == c
    }

    /** The name is bound and holds these cells. */
    ghost predicate FileIs(p: Path, c: seq<Cell>)
      reads this
    {
      p in names && Content(Snapshot(), names[p]) == c
    }

    ghost predicate Runs(u: nat, job: Job, pc: Pc)
      reads this
    {
      u in ups && ups[u].job == job && ups[u].pc == pc
    }

    constructor ()
      ensures Snapshot() == EmptyArchive
    {
      names, inodes, dirs, next := map[], map[], {}, 0;
      ups, binder := map[], map[];
    }

    method TryExists(u: nat, p: Path, ok: bool) returns (present: bool)
      requires u in ups && ups[u].pc.Check? && ups[u].job.final == p
      modifies this
      ensures Snapshot() == Apply(old(Snapshot()), Step(u, ok, 0))
      ensures present == (p in old(names) || p in old(dirs))
      ensures ups == old(ups)[u := old(ups)[u].(pc := AfterCheck(old(ups)[u], ok, present))]
      ensures SameFiles(old(names), old(inodes)) && dirs == old(dirs)
    {
      present := p in names || p in dirs;
      ups := ups[u := ups[u].(pc := AfterCheck(ups[u], ok, present))];
    }

    method Metadata(u: nat, final: Path, ok: bool, dirSize: nat) returns (size: nat)
      requires u in ups && ups[u].pc.Size? && ups[u].job.final == final
      modifies this
      ensures Snapshot() == Apply(old(Snapshot()), Step(u, ok, dirSize))
      ensures size == ReportedSize(old(Snapshot()), StagingPath(final), dirSize)
      ensures StagingPath(final) !in names && StagingPath(final) !in dirs ==> size == 0
      ensures StagingPath(final) in names ==> size == |Content(Snapshot(), names[StagingPath(final)])|
      ensures ups == old(ups)[u := old(ups)[u].(pc := AfterSize(old(ups)[u], ok, size))]
      ensures SameFiles(old(names), old(inodes)) && dirs == old(dirs)
    {
      var staging := StagingPath(final);
      size := if staging in names then (if names[staging] in inodes then |inodes[names[staging]]| else 0)
              else if staging in dirs then dirSize else 0;
      ups := ups[u := ups[u].(pc := AfterSize(ups[u], ok, size))];
    }

    method CreateDirAll(u: nat, final: Path, ok: bool, made: nat) returns (done: bool)
      requires u in ups && ups[u].pc.MkDirs? && ups[u].job.final == final
      modifies this
      ensures Snapshot() == Apply(old(Snapshot()), Step(u, ok, made))
      ensures ups == old(ups)[u := old(ups)[u].(pc := if done then Pc.Open else Done(Failed(StoreError.Io)))]
      ensures SameFiles(old(names), old(inodes)) && done == (ok && ProperPrefixes(final) !! names.Keys)
      ensures
        dirs == if done then old(dirs) + ProperPrefixes(final)
                else if ok || !(ProperPrefixes(final) !! names.Keys) then old(dirs)
                else old(dirs) + FirstPrefixes(final, made)
    {
      var free := ProperPrefixes(final) !! names.Keys;
      done := ok && free;
      if done {
        dirs := dirs + ProperPrefixes(final);
      } else if free {
        dirs := dirs + FirstPrefixes(final, made);
      }
      ups := ups[u := ups[u].(pc := if done then Pc.Open else Done(Failed(StoreError.Io)))];
    }

    /** create_dir_all of `p` itself; a call that fails leaves the first `made` ancestors. */
    method MakeDirs(p: Path, ok: bool, made: nat) returns (done: bool, ghost trace: seq<Action>)
      modifies this`dirs
      ensures done == (ok && Chain(p) !! names.Keys)
      ensures dirs == old(dirs) + MadeDirs(old(Snapshot()), p, ok, made)
      ensures Exec(old(Snapshot()), trace) == Snapshot()
      ensures (done ==> trace == [Mkd(p)]) && forall a :: a in trace ==> a.Mkd? && a.path <= p
    {
      ghost var s := Snapshot();
      var free := Chain(p) !! names.Keys;
      done, trace := ok && free, [];
      if done {
        dirs := dirs + Chain(p);
        trace := [Mkd(p)];
        ExecOne(s, Mkd(p));
      } else if free && made > 0 && p != [] {
        ghost var q := p[..if made < |p| then made - 1 else |p| - 1];
        FirstIsChain(p, made, q);
        dirs := dirs + FirstPrefixes(p, made);
        trace := [Mkd(q)];
        ExecOne(s, Mkd(q));
      }
    }

    /** Opens `p`, creating it if it is not there, emptying it if it is and `truncate` is set. */
    method OpenFile(u: nat, p: Path, truncate: bool, ok: bool) returns (isOpen: bool, handle: nat)
      requires u in ups && ups[u].pc.Open? && ups[u].job.Target() == p
      requires truncate <==> ups[u].job.mode != Plain
      modifies this
      ensures Snapshot() == Apply(old(Snapshot()), Step(u, ok, 0))
      ensures
        ups == old(ups)[u := if isOpen then old(ups)[u].(pc := Copy, handle := handle, pos := 0)
                             else old(ups)[u].(pc := Done(Failed(StoreError.Io)))]
      ensures dirs == old(dirs) && isOpen == (ok && p !in dirs && Dir(p) in dirs)
      ensures isOpen ==> names == old(names)[p := handle]
      ensures isOpen ==> Holds(handle, if p in old(names) && !truncate then Content(old(Snapshot()), handle) else [])
      ensures isOpen && p in old(names) ==> handle == old(names)[p]
      ensures !isOpen ==> SameFiles(old(names), old(inodes))
    {
      isOpen := ok && p !in dirs && Dir(p) in dirs;
      handle := if p in names then names[p] else next;
      if isOpen {
        if p !in names {
          next := next + 1;
          inodes := inodes[handle := []];
        } else {
          inodes := inodes[handle := if truncate || handle !in inodes then [] else inodes[handle]];
        }
        names := names[p := handle];
        ups := ups[u := ups[u].(pc := Copy, handle := handle, pos := 0)];
      } else {
        ups := ups[u := ups[u].(pc := Done(Failed(StoreError.Io)))];
      }
    }

    /** Writes `output[pos..pos + k]`, at the end of an append handle, else at the position. */
    method Write(u: nat, handle: nat, append: bool, output: seq<Byte>, pos: nat, k: nat)
      requires u in ups && ups[u].pc.Copy? && ups[u].handle == handle && ups[u].pos == pos
      requires ups[u].job.output == output && (append <==> ups[u].job.mode == Plain)
      requires 1 <= k && pos + k <= |output|
      modifies this
      ensures Snapshot() == Apply(old(Snapshot()), Step(u, true, k))
      ensures ups == old(ups)[u := old(ups)[u].(pos := pos + k)]
      ensures names == old(names) && dirs == old(dirs)
      ensures append || |Content(old(Snapshot()), handle)| == pos ==>
                Holds(handle, Content(old(Snapshot()), handle) + Cells(output, u, pos, k))
    {
      var before := if handle in inodes then inodes[handle] else [];
      var cells := Cells(output, u, pos, k);
      if |before| == pos {
        WriteAtEnd(before, cells);
      }
      hide WriteAt, Cells;
      inodes := inodes[handle := if append then before + cells else WriteAt(before, pos, cells)];
      ups := ups[u := ups[u].(pos := pos + k)];
    }

    /** hard_link, which never replaces an existing name. */
    method HardLink(u: nat, final: Path, ok: bool) returns (done: bool, clash: bool)
      requires u in ups && ups[u].pc.Link? && ups[u].job.final == final
      modifies this
      ensures Snapshot() == Apply(old(Snapshot()), Step(u, ok, 0))
      ensures
        ups == old(ups)[u := if done then old(ups)[u].(pc := Unlink, linked := true)
                             else old(ups)[u].(pc := Discard(if clash then Finalized else StoreError.Io))]
      ensures inodes == old(inodes) && dirs == old(dirs)
      ensures !done ==> clash == (ok && StagingPath(final) in old(names))
      ensures done == (ok && StagingPath(final) in old(names) && final !in old(names) && final !in old(dirs))
      ensures names == if done then old(names)[final := old(names)[StagingPath(final)]] else old(names)
    {
      var staging := StagingPath(final);
      clash := ok && staging in names && (final in names || final in dirs);
      done := ok && staging in names && !clash;
      if done {
        names := names[final := names[staging]];
        binder := binder[final := u];
        ups := ups[u := ups[u].(pc := Unlink, linked := true)];
      } else {
        ups := ups[u := ups[u].(pc := Discard(if clash then Finalized else StoreError.Io))];
      }
    }

    /** remove_file of the staging name; its own failure is ignored. */
    method RemoveStaging(u: nat, final: Path, ok: bool, ghost outcome: Outcome)
      requires u in ups && ups[u].job.final == final
      requires (ups[u].pc == Unlink && outcome == Stored(|ups[u].job.input|))
        || (ups[u].pc.Discard? && outcome == Failed(ups[u].pc.error))
      modifies this
      ensures Snapshot() == Apply(old(Snapshot()), Step(u, ok, 0))
      ensures ups == old(ups)[u := old(ups)[u].(pc := Done(outcome))]
      ensures inodes == old(inodes) && dirs == old(dirs)
      ensures names == if ok then old(names) - {StagingPath(final)} else old(names)
    {
      if ok {
        binder := binder - {StagingPath(final)};
        names := names - {StagingPath(final)};
      }
      ups := ups[u := ups[u].(pc := Done(outcome))];
    }

    ghost method EndCopy(u: nat, ok: bool)
      requires u in ups && ups[u].pc.Copy? && (ok ==> ups[u].pos == |ups[u].job.output|)
      modifies this`ups
      ensures Snapshot() == Apply(old(Snapshot()), Step(u, ok, 0))
      ensures ups == old(ups)[u := old(ups)[u].(pc := AfterCopy(old(ups)[u], ok))]
    {
      ups := ups[u := ups[u].(pc := AfterCopy(ups[u], ok))];
    }

    ghost method BeginUpload(u: nat, job: Job)
      requires u !in ups
      modifies this`ups
      ensures Snapshot() == Apply(old(Snapshot()), Begin(u, job))
      ensures ups == old(ups)[u := NewUpload(job)]
    {
      ups := ups[u := NewUpload(job)];
    }

    ghost method EndFlush(u: nat, ok: bool)
      requires u in ups && ups[u].pc.Flush?
      modifies this`ups
      ensures Snapshot() == Apply(old(Snapshot()), Step(u, ok, 0))
      ensures ups == old(ups)[u := old(ups)[u].(pc := if ok then Link else Done(Failed(StoreError.Io)))]
    {
      ups := ups[u := ups[u].(pc := if ok then Link else Done(Failed(StoreError.Io)))];
    }

    method CopyChunk(u: nat, handle: nat, append: bool, output: seq<Byte>, pos: nat, io: Io,
                     ghost d: Discipline, ghost o: State, ghost before: seq<Action>, ghost start: seq<Cell>)
      returns (n: nat, ghost trace: seq<Action>)
      requires Valid(d, o, before) && Exec(o, before) == Snapshot()
      requires u in ups && OwnRun(before, u, ups[u].job) && ups[u].pc.Copy? && ups[u].handle == handle
        && ups[u].pos == pos < |output|
      requires ups[u].job.output == output && (append <==> ups[u].job.mode == Plain)
      modifies this
      ensures Valid(d, o, trace) && Exec(o, trace) == Snapshot()
      ensures OwnRun(trace, u, old(ups)[u].job)
      ensures pos < n <= |output| && ups == old(ups)[u := old(ups)[u].(pos := n)]
      ensures names == old(names) && dirs == old(dirs)
      ensures append || start == [] ==>
                Content(old(Snapshot()), handle) == start + Cells(output, u, 0, pos)
                ==> Content(Snapshot(), handle) == start + Cells(output, u, 0, n)
    {
      hide Valid, Exec, Apply;
      var k := if 1 <= io.chunk(pos) <= |output| - pos then io.chunk(pos) else |output| - pos;
      ghost var s := Snapshot();
      Write(u, handle, append, output, pos, k);
      Extend(d, o, before, Step(u, true, k), s, Snapshot(), ups[u].job);
      n, trace := pos + k, before + [Step(u, true, k)];
      CellsConcat(output, u, pos, k, start);
    }

    /** io::copy: chunk by chunk until the input ends or a read or write fails. */
    method CopyAll(u: nat, handle: nat, append: bool, output: seq<Byte>, io: Io,
                   ghost d: Discipline, ghost o: State, ghost before: seq<Action>)
      returns (n: nat, ok: bool, ghost trace: seq<Action>)
      requires Valid(d, o, before) && Exec(o, before) == Snapshot()
      requires u in ups && OwnRun(before, u, ups[u].job) && ups[u].pc.Copy? && ups[u].handle == handle
        && ups[u].pos == 0
      requires ups[u].job.output == output && (append <==> ups[u].job.mode == Plain)
      modifies this
      ensures Valid(d, o, trace) && Exec(o, trace) == Snapshot()
      ensures OwnRun(trace, u, old(ups)[u].job)
      ensures (ok ==> n == |output|) && (ok <==> !(0 <= io.copyFailsAt <= |output|))
      ensures ups == old(ups)[u := old(ups)[u].(pos := n, pc := AfterCopy(old(ups)[u], ok))]
      ensures names == old(names) && dirs == old(dirs)
      ensures ok && (append || Content(old(Snapshot()), handle) == []) ==>
                Content(Snapshot(), handle) == Content(old(Snapshot()), handle) + Cells(output, u, 0, |output|)
    {
      hide Valid, Exec, Apply, Cells;
      n, trace := CopyChunks(u, handle, append, output, io, d, o, before);
      ok := !(0 <= io.copyFailsAt <= n);
      ghost var s := Snapshot();
      EndCopy(u, ok);
      Extend(d, o, trace, Step(u, ok, 0), s, Snapshot(), ups[u].job);
      trace := trace + [Step(u, ok, 0)];
    }

    method CopyChunks(u: nat, handle: nat, append: bool, output: seq<Byte>, io: Io,
                      ghost d: Discipline, ghost o: State, ghost before: seq<Action>)
      returns (n: nat, ghost trace: seq<Action>)
      requires Valid(d, o, before) && Exec(o, before) == Snapshot()
      requires u in ups && OwnRun(before, u, ups[u].job) && ups[u].pc.Copy? && ups[u].handle == handle
        && ups[u].pos == 0
      requires ups[u].job.output == output && (append <==> ups[u].job.mode == Plain)
      modifies this
      ensures Valid(d, o, trace) && Exec(o, trace) == Snapshot()
      ensures OwnRun(trace, u, old(ups)[u].job)
      ensures n <= |output| && (n == |output| || 0 <= io.copyFailsAt <= n)
      ensures ups == old(ups)[u := old(ups)[u].(pos := n)] && names == old(names) && dirs == old(dirs)
      ensures append || Content(old(Snapshot()), handle) == [] ==>
                Content(Snapshot(), handle) == Content(old(Snapshot()), handle) + Cells(output, u, 0, n)
    {
      n, trace := 0, before;
      ghost var x := ups[u];
      ghost var start := Content(Snapshot(), handle);
      assert start + Cells(output, u, 0, 0) == start;
      hide Valid, Exec, Apply, AfterCopy, Cells, Respects, Enabled;
      while n < |output| && !(0 <= io.copyFailsAt <= n)
        invariant n <= |output|
        invariant Valid(d, o, trace) && Exec(o, trace) == Snapshot() && OwnRun(trace, u, x.job)
        invariant ups == old(ups)[u := x.(pos := n)] && names == old(names) && dirs == old(dirs)
        invariant append || start == [] ==> Content(Snapshot(), handle) == start + Cells(output, u, 0, n)
        decreases |output| - n
      {
        n, trace := CopyChunk(u, handle, append, output, n, io, d, o, trace, start);
      }
    }

    /** Links the staging name to the final name and drops the staging name, linked or not. */
    method Finalize(u: nat, final: Path, n: nat, io: Io, ghost d: Discipline, ghost o: State, ghost before: seq<Action>)
      returns (r: Outcome, ghost trace: seq<Action>)
      requires Valid(d, o, before) && Exec(o, before) == Snapshot()
      requires u in ups && OwnRun(before, u, ups[u].job) && ups[u].pc.Link? && ups[u].job.final == final
        && n == |ups[u].job.input|
      modifies this
      ensures Valid(d, o, trace) && Exec(o, trace) == Snapshot()
      ensures OwnRun(trace, u, old(ups)[u].job)
      ensures Runs(u, old(ups)[u].job, Done(r)) && (r.Stored? ==> r.n == n)
      ensures inodes == old(inodes) && dirs == old(dirs)
      ensures
        r == if io.link || StagingPath(final) !in old(names) then Failed(StoreError.Io)
             else if final in old(names) || final in old(dirs) then Failed(Finalized) else Stored(n)
      ensures !io.unlink ==> StagingPath(final) !in names
      ensures
        var linked := if r.Stored? then old(names)[final := old(names)[StagingPath(final)]] else old(names);
        names == if io.unlink then linked else linked - {StagingPath(final)}
      ensures r.Stored? ==> final in names && names[final] == old(names)[StagingPath(final)]
    {
      StagingDiffers(final);
      hide Valid, Exec, Apply;
      ghost var s := Snapshot();
      var done, clash := HardLink(u, final, !io.link);
      Extend(d, o, before, Step(u, !io.link, 0), s, Snapshot(), ups[u].job);
      trace := before + [Step(u, !io.link, 0)];
      r := if done then Stored(n) else Failed(if clash then Finalized else StoreError.Io);
      s := Snapshot();
      RemoveStaging(u, final, !io.unlink, r);
      Extend(d, o, trace, Step(u, !io.unlink, 0), s, Snapshot(), ups[u].job);
      trace := trace + [Step(u, !io.unlink, 0)];
    }

    /** The file the upload writes is open, with the content it had, if it is a plaintext one. */
    ghost predicate Staged(s: State, job: Job, handle: nat)
      reads this
    {
      var p := job.Target();
      && names == s.names[p := handle] && dirs == s.dirs + ProperPrefixes(job.final)
      && Holds(handle, if p in s.names && job.mode == Plain then File(s, p) else [])
    }

    /** create_dir_all of the parent, then the open. */
    method MakeAndOpen(u: nat, job: Job, io: Io, ghost d: Discipline, ghost o: State, ghost before: seq<Action>)
      returns (isOpen: bool, handle: nat, ghost trace: seq<Action>)
      requires Valid(d, o, before) && Exec(o, before) == Snapshot() && OwnRun(before, u, job)
      requires Runs(u, job, MkDirs) && job.final != []
      modifies this
      ensures Valid(d, o, trace) && Exec(o, trace) == Snapshot()
      ensures OwnRun(trace, u, job)
      ensures u in ups && ups[u].job == job
      ensures if isOpen then ups[u].pc.Copy? && ups[u].handle == handle && ups[u].pos == 0
              else ups[u].pc == Done(Failed(StoreError.Io))
      ensures isOpen == Opens(old(Snapshot()), job, io)
      ensures isOpen ==> Staged(old(Snapshot()), job, handle)
      ensures !isOpen ==> SameFiles(old(names), old(inodes))
    {
      NoProperPrefix(job.final);
      hide Valid, Exec, Apply, StagingPath, ProperPrefixes;
      ghost var s := Snapshot();
      var made := CreateDirAll(u, job.final, !io.mkdirs, io.mkdirsDone);
      Extend(d, o, before, Step(u, !io.mkdirs, io.mkdirsDone), s, Snapshot(), job);
      trace := before + [Step(u, !io.mkdirs, io.mkdirsDone)];
      isOpen, handle := false, 0;
      if made {
        s := Snapshot();
        isOpen, handle := OpenFile(u, job.Target(), job.mode != Plain, !io.open);
        Extend(d, o, trace, Step(u, !io.open, 0), s, Snapshot(), job);
        trace := trace + [Step(u, !io.open, 0)];
      }
    }

    /** The existence check and the offset check of the plaintext store; None lets it go on. */
    method CheckOffset(u: nat, job: Job, io: Io, ghost d: Discipline, ghost o: State, ghost before: seq<Action>)
      returns (refused: Option<StoreError>, ghost trace: seq<Action>)
      requires Valid(d, o, before) && Exec(o, before) == Snapshot() && OwnRun(before, u, job)
      requires Runs(u, job, Check) && job.mode == Plain
      modifies this
      ensures Valid(d, o, trace) && Exec(o, trace) == Snapshot()
      ensures OwnRun(trace, u, job)
      ensures Runs(u, job, if refused.Some? then Done(Failed(refused.value)) else MkDirs)
      ensures refused.None? ==>
                && SameFiles(old(names), old(inodes)) && dirs == old(dirs)
                && ReportedSize(old(Snapshot()), StagingPath(job.final), io.dirSize) == job.start
      ensures refused == OffsetRefusal(old(Snapshot()), job, io)
      ensures refused.Some? ==> SameFiles(RefusedNames(old(Snapshot()), job, io, refused.value), old(inodes))
    {
      refused, trace := CheckFree(u, job, io, d, o, before);
      if refused.None? {
        refused, trace := CheckSize(u, job, io, d, o, trace);
      }
    }

    /** try_exists; a file among the ancestors makes it fail. */
    method CheckFree(u: nat, job: Job, io: Io, ghost d: Discipline, ghost o: State, ghost before: seq<Action>)
      returns (refused: Option<StoreError>, ghost trace: seq<Action>)
      requires Valid(d, o, before) && Exec(o, before) == Snapshot() && OwnRun(before, u, job)
      requires Runs(u, job, Check) && job.mode == Plain
      modifies this
      ensures Valid(d, o, trace) && Exec(o, trace) == Snapshot()
      ensures OwnRun(trace, u, job)
      ensures Runs(u, job, if refused.Some? then Done(Failed(refused.value)) else Size)
      ensures SameFiles(old(names), old(inodes)) && dirs == old(dirs)
      ensures
        refused == if io.check || Blocked(old(Snapshot()), job.final) then Some(StoreError.Io)
                   else if Exists(old(Snapshot()), job.final) then Some(Finalized) else None
    {
      hide Valid, Exec, Apply, StagingPath, ProperPrefixes, OwnRun;
      ghost var s := Snapshot();
      var reaches := job.final in names || job.final in dirs || ProperPrefixes(job.final) !! names.Keys;
      var works := !io.check && reaches;
      var present := TryExists(u, job.final, works);
      Extend(d, o, before, Step(u, works, 0), s, Snapshot(), job);
      trace := before + [Step(u, works, 0)];
      refused := if !works then Some(StoreError.Io) else if present then Some(Finalized) else None;
    }

    /** The size of the staging file against the start offset; a mismatch discards it. */
    method CheckSize(u: nat, job: Job, io: Io, ghost d: Discipline, ghost o: State, ghost before: seq<Action>)
      returns (refused: Option<StoreError>, ghost trace: seq<Action>)
      requires Valid(d, o, before) && Exec(o, before) == Snapshot() && OwnRun(before, u, job)
      requires Runs(u, job, Size) && job.mode == Plain
      modifies this
      ensures Valid(d, o, trace) && Exec(o, trace) == Snapshot()
      ensures OwnRun(trace, u, job)
      ensures Runs(u, job, if refused.Some? then Done(Failed(refused.value)) else MkDirs)
      ensures dirs == old(dirs)
      ensures
        var size := ReportedSize(old(Snapshot()), StagingPath(job.final), io.dirSize);
        refused == if io.size then Some(StoreError.Io)
                   else if job.start < size then Some(StoreError.Overlap)
                   else if job.start > size then Some(StoreError.Gap) else None
      ensures refused.None? ==> SameFiles(old(names), old(inodes))
      ensures refused.Some? ==> SameFiles(RefusedNames(old(Snapshot()), job, io, refused.value), old(inodes))
    {
      hide Valid, Exec, Apply, StagingPath, OwnRun;
      ghost var s := Snapshot();
      var size := Metadata(u, job.final, !io.size, io.dirSize);
      Extend(d, o, before, Step(u, !io.size, io.dirSize), s, Snapshot(), job);
      trace := before + [Step(u, !io.size, io.dirSize)];
      if io.size {
        return Some(StoreError.Io), trace;
      }
      if ClassifyOffset(job.start, size) == OffsetVerdict.Ok {
        return None, trace;
      }
      var e := if job.start < size then StoreError.Overlap else StoreError.Gap;
      s := Snapshot();
      RemoveStaging(u, job.final, !io.unlink, Failed(e));
      Extend(d, o, trace, Step(u, !io.unlink, 0), s, Snapshot(), job);
      return Some(e), trace + [Step(u, !io.unlink, 0)];
    }

    /** No name but the staging name, and the final name of a finished store, is bound otherwise. */
    ghost predicate OnlyNames(names0: map<Path, nat>, final: Path, r: Outcome)
      reads this
    {
      var S := StagingPath(final);
      names - {S} == if r.Stored? && final in names then (names0 - {S})[final := names[final]] else names0 - {S}
    }

    /** The plaintext store from the directories on. */
    method StageAndLink(u: nat, job: Job, io: Io, ghost d: Discipline, ghost o: State, ghost before: seq<Action>)
      returns (r: Outcome, ghost trace: seq<Action>)
      requires Valid(d, o, before) && Exec(o, before) == Snapshot() && OwnRun(before, u, job)
      requires Runs(u, job, MkDirs) && job.mode == Plain && WfJob(job)
      modifies this
      ensures Valid(d, o, trace) && Exec(o, trace) == Snapshot()
      ensures OwnRun(trace, u, job)
      ensures Runs(u, job, Done(r)) && (r.Stored? ==> r.n == |job.input|)
      ensures r.Stored? ==> Finished(old(Snapshot()), job, u)
      ensures OnlyNames(old(names), job.final, r)
      ensures
        StagingPath(job.final) in names <==>
          if Opens(old(Snapshot()), job, io) then io.unlink || (Copies(job, io) && io.flush)
          else StagingPath(job.final) in old(names)
      ensures
        r == if !Opens(old(Snapshot()), job, io) || !Copies(job, io) || io.flush || io.link then Failed(StoreError.Io)
             else if Exists(old(Snapshot()), job.final) then Failed(Finalized) else Stored(|job.input|)
    {
      NoProperPrefix(job.final);
      StagingDiffers(job.final);
      hide Valid, Exec, Apply, StagingPath, ProperPrefixes, WfJob, Cells, Opens, Copies, Enabled;
      var isOpen, handle;
      isOpen, handle, trace := MakeAndOpen(u, job, io, d, o, before);
      if !isOpen {
        return Failed(StoreError.Io), trace;
      }
      r, trace := AppendAndLink(u, job, handle, io, d, o, trace);
      LinkedNames(old(names), StagingPath(job.final), job.final, handle, r.Stored?,
                  !io.unlink && !(Copies(job, io) && io.flush));
    }

    /** The plaintext store from the open staging file on. */
    method AppendAndLink(u: nat, job: Job, handle: nat, io: Io, ghost d: Discipline, ghost o: State,
                         ghost before: seq<Action>)
      returns (r: Outcome, ghost trace: seq<Action>)
      requires Valid(d, o, before) && Exec(o, before) == Snapshot() && OwnRun(before, u, job)
      requires Runs(u, job, Copy) && ups[u].handle == handle && ups[u].pos == 0
      requires job.mode == Plain && job.output == job.input
      requires StagingPath(job.final) in names && names[StagingPath(job.final)] == handle
      modifies this
      ensures Valid(d, o, trace) && Exec(o, trace) == Snapshot()
      ensures OwnRun(trace, u, job)
      ensures Runs(u, job, Done(r))
      ensures
        r == if !Copies(job, io) || io.flush || io.link then Failed(StoreError.Io)
             else if Exists(old(Snapshot()), job.final) then Failed(Finalized) else Stored(|job.input|)
      ensures !io.unlink && !(Copies(job, io) && io.flush) ==> StagingPath(job.final) !in names
      ensures
        var linked := if r.Stored? then old(names)[job.final := handle] else old(names);
        names == if io.unlink || (Copies(job, io) && io.flush) then linked else linked - {StagingPath(job.final)}
      ensures r.Stored? ==>
                && job.final in names
                && Content(Snapshot(), names[job.final])
                   == Content(old(Snapshot()), handle) + Cells(job.output, u, 0, |job.output|)
    {
      hide Valid, Exec, Apply, StagingPath, Cells, OwnRun;
      var n, ok;
      n, ok, trace := CopyAll(u, handle, true, job.output, io, d, o, before);
      ghost var s := Snapshot();
      if !ok {
        RemoveStaging(u, job.final, !io.unlink, Failed(StoreError.Io));
        Extend(d, o, trace, Step(u, !io.unlink, 0), s, Snapshot(), job);
        return Failed(StoreError.Io), trace + [Step(u, !io.unlink, 0)];
      }
      r, trace := FlushAndLink(u, job.final, n, io, d, o, trace);
    }

    method FlushAndLink(u: nat, final: Path, n: nat, io: Io, ghost d: Discipline, ghost o: State,
                        ghost before: seq<Action>)
      returns (r: Outcome, ghost trace: seq<Action>)
      requires Valid(d, o, before) && Exec(o, before) == Snapshot()
      requires u in ups && OwnRun(before, u, ups[u].job) && ups[u].pc.Flush? && ups[u].job.final == final
        && n == |ups[u].job.input|
      modifies this
      ensures Valid(d, o, trace) && Exec(o, trace) == Snapshot()
      ensures OwnRun(trace, u, old(ups)[u].job)
      ensures Runs(u, old(ups)[u].job, Done(r)) && (r.Stored? ==> r.n == n)
      ensures inodes == old(inodes)
      ensures
        r == if io.flush || io.link || StagingPath(final) !in old(names) then Failed(StoreError.Io)
             else if Exists(old(Snapshot()), final) then Failed(Finalized) else Stored(n)
      ensures !io.unlink && !io.flush ==> StagingPath(final) !in names
      ensures
        var linked := if r.Stored? then old(names)[final := old(names)[StagingPath(final)]] else old(names);
        names == if io.unlink || io.flush then linked else linked - {StagingPath(final)}
      ensures r.Stored? ==> final in names && names[final] == old(names)[StagingPath(final)]
    {
      hide Valid, Exec, Apply, StagingPath;
      ghost var s := Snapshot();
      EndFlush(u, !io.flush);
      Extend(d, o, before, Step(u, !io.flush, 0), s, Snapshot(), ups[u].job);
      trace := before + [Step(u, !io.flush, 0)];
      if io.flush {
        return Failed(StoreError.Io), trace;
      }
      r, trace := Finalize(u, final, n, io, d, o, trace);
    }

    /** The final name was not bound in `s`; now it holds what was staged in `s`, if this is a
        plaintext upload, followed by the whole output. */
    ghost predicate Finished(s: State, job: Job, u: nat)
      reads this
    {
      var S := StagingPath(job.final);
      && job.final !in s.names && job.final in names && (S in s.names || S !in s.dirs)
      && Content(Snapshot(), names[job.final])
         == (if S in s.names && job.mode == Plain then File(s, S) else []) + Cells(job.output, u, 0, |job.output|)
    }

    /** store_stream: a run of the step machine in which upload `u` takes every step, ending with
        the outcome that is returned. */
    method StoreStream(final: Path, start: nat, input: seq<Byte>, io: Io, u: nat, ghost d: Discipline)
      returns (r: Outcome, ghost trace: seq<Action>)
      requires u !in ups
      requires var job := Job(Plain, final, start, input, input);
        WfJob(job) && Respects(d, Snapshot(), Begin(u, job))
      modifies this
      ensures Valid(d, old(Snapshot()), trace) && Exec(old(Snapshot()), trace) == Snapshot()
      ensures OwnRun(trace, u, Job(Plain, final, start, input, input))
      ensures Runs(u, Job(Plain, final, start, input, input), Done(r))
      ensures r.Stored? ==> r.n == |input|
      ensures r.Stored? ==> Finished(old(Snapshot()), Job(Plain, final, start, input, input), u)
      ensures r == LoneOutcome(old(Snapshot()), Job(Plain, final, start, input, input), io)
      ensures
        var job := Job(Plain, final, start, input, input);
        var refusal := OffsetRefusal(old(Snapshot()), job, io);
        refusal.Some? ==> SameFiles(RefusedNames(old(Snapshot()), job, io, refusal.value), old(inodes))
      ensures !io.check && Exists(old(Snapshot()), final) ==>
          r == Failed(Finalized) && SameFiles(old(names), old(inodes))
      ensures
        r.Stored? <==>
          && !io.check && !io.size && !io.mkdirs && !io.open && !io.flush && !io.link
          && !(0 <= io.copyFailsAt <= |input|)
          && (forall q :: q in old(names) ==> !(q < final))
          && final !in old(names) && final !in old(dirs) && StagingPath(final) !in old(dirs)
          && start == if StagingPath(final) in old(names) then |File(old(Snapshot()), StagingPath(final))| else 0
      ensures OnlyNames(old(names), final, r)
      ensures
        var job := Job(Plain, final, start, input, input);
        var refusal := OffsetRefusal(old(Snapshot()), job, io);
        StagingPath(final) in names <==>
          if refusal in {Some(StoreError.Overlap), Some(StoreError.Gap)} then
            io.unlink && StagingPath(final) in old(names)
          else if refusal.Some? || !Opens(old(Snapshot()), job, io) then StagingPath(final) in old(names)
          else io.unlink || (Copies(job, io) && io.flush)
      ensures r.Stored? && !io.unlink ==> StagingPath(final) !in names
    {
      hide Valid, Exec, Apply, StagingPath, ProperPrefixes, OffsetRefusal, LoneOutcome, Opens, Copies, RefusedNames,
        OnlyNames, OwnRun, Cells, WfJob, Respects, Exists, ReportedSize;
      var job := Job(Plain, final, start, input, input);
      ghost var o := Snapshot();
      BeginUpload(u, job);
      Start(d, o, u, job);
      trace := [Begin(u, job)];
      ghost var refusal := OffsetRefusal(o, job, io);
      OutcomeByFiles(o, Snapshot(), job, io, if refusal.Some? then refusal.value else StoreError.Io);
      r, trace := CheckAndStore(u, job, io, d, o, trace);
      StoredExactly(o, job, io);
    }

    method CheckAndStore(u: nat, job: Job, io: Io, ghost d: Discipline, ghost o: State, ghost before: seq<Action>)
      returns (r: Outcome, ghost trace: seq<Action>)
      requires Valid(d, o, before) && Exec(o, before) == Snapshot() && OwnRun(before, u, job)
      requires Runs(u, job, Check) && job.mode == Plain && WfJob(job)
      modifies this
      ensures Valid(d, o, trace) && Exec(o, trace) == Snapshot()
      ensures OwnRun(trace, u, job)
      ensures Runs(u, job, Done(r))
      ensures r.Stored? ==> Finished(old(Snapshot()), job, u)
      ensures r == LoneOutcome(old(Snapshot()), job, io)
      ensures var refusal := OffsetRefusal(old(Snapshot()), job, io);
        refusal.Some? ==> SameFiles(RefusedNames(old(Snapshot()), job, io, refusal.value), old(inodes))
      ensures OnlyNames(old(names), job.final, r)
      ensures
        var refusal := OffsetRefusal(old(Snapshot()), job, io);
        StagingPath(job.final) in names <==>
          if refusal in {Some(StoreError.Overlap), Some(StoreError.Gap)} then
            io.unlink && StagingPath(job.final) in old(names)
          else if refusal.Some? || !Opens(old(Snapshot()), job, io) then StagingPath(job.final) in old(names)
          else io.unlink || (Copies(job, io) && io.flush)
      ensures r.Stored? && !io.unlink ==> StagingPath(job.final) !in names
      ensures !io.check && Exists(old(Snapshot()), job.final) ==>
          r == Failed(Finalized) && SameFiles(old(names), old(inodes))
    {
      hide Valid, Exec, Apply, StagingPath, ProperPrefixes, WfJob, Copies, OwnRun;
      var refused;
      refused, trace := CheckOffset(u, job, io, d, o, before);
      if refused.Some? {
        return Failed(refused.value), trace;
      }
      r, trace := StageAndLink(u, job, io, d, o, trace);
    }

    /** store_encrypted, on the ciphertext `output` of `input`. A failing existence check counts
        as absent. */
    method StoreEncrypted(final: Path, input: seq<Byte>, output: seq<Byte>, io: Io, u: nat, ghost d: Discipline)
      returns (r: Outcome, ghost trace: seq<Action>)
      requires u !in ups
      requires var job := Job(Encrypted, final, 0, input, output);
        WfJob(job) && Respects(d, Snapshot(), Begin(u, job))
      requires d.checksWork ==> !io.check
      modifies this
      ensures Valid(d, old(Snapshot()), trace) && Exec(old(Snapshot()), trace) == Snapshot()
      ensures OwnRun(trace, u, Job(Encrypted, final, 0, input, output))
      ensures Runs(u, Job(Encrypted, final, 0, input, output), Done(r))
      ensures r.Stored? ==> r.n == |input|
      ensures r.Stored? ==> Finished(old(Snapshot()), Job(Encrypted, final, 0, input, output), u)
      ensures r == LoneOutcome(old(Snapshot()), Job(Encrypted, final, 0, input, output), io)
      ensures !io.check && Exists(old(Snapshot()), final) ==>
          r == Failed(Finalized) && SameFiles(old(names), old(inodes))
      ensures
        r.Stored? <==>
          && !io.mkdirs && !io.open && !io.link && !(0 <= io.copyFailsAt <= |output|)
          && (forall q :: q in old(names) ==> !(q < final))
          && final !in old(names) && final !in old(dirs) && StagingPath(final) !in old(dirs)
      ensures OnlyNames(old(names), final, r)
      ensures
        var job := Job(Encrypted, final, 0, input, output);
        StagingPath(final) in names <==>
          if (!io.check && Exists(old(Snapshot()), final)) || !Opens(old(Snapshot()), job, io) then
            StagingPath(final) in old(names)
          else io.unlink || !Copies(job, io)
      ensures r.Stored? && !io.unlink ==> StagingPath(final) !in names
    {
      var job := Job(Encrypted, final, 0, input, output);
      ghost var o := Snapshot();
      BeginUpload(u, job);
      Start(d, o, u, job);
      trace := [Begin(u, job)];
      ghost var s := Snapshot();
      var present := TryExists(u, final, !io.check);
      Extend(d, o, trace, Step(u, !io.check, 0), s, Snapshot(), job);
      trace := trace + [Step(u, !io.check, 0)];
      if !io.check && present {
        return Failed(Finalized), trace;
      }
      r, trace := EncryptAndLink(u, job, io, d, o, trace);
      StoredExactly(o, job, io);
    }

    method EncryptAndLink(u: nat, job: Job, io: Io, ghost d: Discipline, ghost o: State, ghost before: seq<Action>)
      returns (r: Outcome, ghost trace: seq<Action>)
      requires Valid(d, o, before) && Exec(o, before) == Snapshot() && OwnRun(before, u, job)
      requires Runs(u, job, MkDirs) && job.mode == Encrypted && WfJob(job)
      modifies this
      ensures Valid(d, o, trace) && Exec(o, trace) == Snapshot()
      ensures OwnRun(trace, u, job)
      ensures Runs(u, job, Done(r)) && (r.Stored? ==> r.n == |job.input|)
      ensures r.Stored? ==> Finished(old(Snapshot()), job, u)
      ensures OnlyNames(old(names), job.final, r)
      ensures
        StagingPath(job.final) in names <==>
          if Opens(old(Snapshot()), job, io) then io.unlink || !Copies(job, io)
          else StagingPath(job.final) in old(names)
      ensures
        r == if !Opens(old(Snapshot()), job, io) || !Copies(job, io) || io.link then Failed(StoreError.Io)
             else if Exists(old(Snapshot()), job.final) then Failed(Finalized) else Stored(|job.input|)
    {
      NoProperPrefix(job.final);
      StagingDiffers(job.final);
      hide Valid, Exec, Apply, StagingPath, ProperPrefixes, WfJob, Cells, Opens, Copies, Enabled;
      var isOpen, handle;
      isOpen, handle, trace := MakeAndOpen(u, job, io, d, o, before);
      if !isOpen {
        return Failed(StoreError.Io), trace;
      }
      r, trace := CopyAndLink(u, job, handle, io, d, o, trace);
      LinkedNames(old(names), StagingPath(job.final), job.final, handle, r.Stored?, !io.unlink && Copies(job, io));
    }

    /** The encrypted store from the open staging file on; a copy that fails leaves it there. */
    method CopyAndLink(u: nat, job: Job, handle: nat, io: Io, ghost d: Discipline, ghost o: State,
                       ghost before: seq<Action>)
      returns (r: Outcome, ghost trace: seq<Action>)
      requires Valid(d, o, before) && Exec(o, before) == Snapshot() && OwnRun(before, u, job)
      requires Runs(u, job, Copy) && ups[u].handle == handle && ups[u].pos == 0 && job.mode == Encrypted
      requires StagingPath(job.final) in names && names[StagingPath(job.final)] == handle && Holds(handle, [])
      modifies this
      ensures Valid(d, o, trace) && Exec(o, trace) == Snapshot()
      ensures OwnRun(trace, u, job)
      ensures Runs(u, job, Done(r))
      ensures
        r == if !Copies(job, io) || io.link then Failed(StoreError.Io)
             else if Exists(old(Snapshot()), job.final) then Failed(Finalized) else Stored(|job.input|)
      ensures !io.unlink && Copies(job, io) ==> StagingPath(job.final) !in names
      ensures
        var linked := if r.Stored? then old(names)[job.final := handle] else old(names);
        names == if io.unlink || !Copies(job, io) then linked else linked - {StagingPath(job.final)}
      ensures r.Stored? ==>
                && job.final in names
                && Content(Snapshot(), names[job.final]) == Cells(job.output, u, 0, |job.output|)
    {
      hide Valid, Exec, Apply, StagingPath, Cells, OwnRun;
      var n, ok;
      n, ok, trace := CopyAll(u, handle, false, job.output, io, d, o, before);
      assert [] + Cells(job.output, u, 0, |job.output|) == Cells(job.output, u, 0, |job.output|);
      if !ok {
        return Failed(StoreError.Io), trace;
      }
      r, trace := Finalize(u, job.final, |job.input|, io, d, o, trace);
    }

    /** The quarantine branch of put: a probe overwrites the probe before it. */
    method StoreProbe(final: Path, input: seq<Byte>, io: Io, u: nat, ghost d: Discipline)
      returns (r: Outcome, ghost trace: seq<Action>)
      requires u !in ups && WfJob(Job(Quarantine, final, 0, input, input))
      modifies this
      ensures Valid(d, old(Snapshot()), trace) && Exec(old(Snapshot()), trace) == Snapshot()
      ensures OwnRun(trace, u, Job(Quarantine, final, 0, input, input))
      ensures Runs(u, Job(Quarantine, final, 0, input, input), Done(r))
      ensures r.Stored? ==> r.n == |input|
      ensures r == LoneOutcome(old(Snapshot()), Job(Quarantine, final, 0, input, input), io)
      ensures r.Stored? ==> FileIs(final, Cells(input, u, 0, |input|))
      ensures
        r.Stored? <==>
          && !io.mkdirs && !io.open && !(0 <= io.copyFailsAt <= |input|)
          && final !in old(dirs) && forall q :: q in old(names) ==> !(q < final)
      ensures names - {final} == old(names) - {final}
    {
      var job := Job(Quarantine, final, 0, input, input);
      ghost var o := Snapshot();
      BeginUpload(u, job);
      Start(d, o, u, job);
      trace := [Begin(u, job)];
      var isOpen, handle;
      isOpen, handle, trace := MakeAndOpen(u, job, io, d, o, trace);
      if !isOpen {
        return Failed(StoreError.Io), trace;
      }
      var n, ok;
      n, ok, trace := CopyAll(u, handle, false, input, io, d, o, trace);
      assert [] + Cells(input, u, 0, |input|) == Cells(input, u, 0, |input|);
      r := if ok then Stored(n) else Failed(StoreError.Io);
      StoredExactly(o, job, io);
    }
  }
}
