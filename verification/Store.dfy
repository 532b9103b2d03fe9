/** The stage-then-finalize store as a step machine (src/backend.rs, store_stream,
    store_encrypted and the quarantine branch of put). Names are bound to inodes, inodes hold
    bytes, and every upload is a program counter over the calls the code awaits, so any
    interleaving, any failing call and any crash between two calls is a run. */
module Store {
  import opened Append

  type Byte = x: int | 0 <= x < 256

  /** A stored byte, with the upload that wrote it and its position in that upload's output. */
  datatype Cell = Cell(byte: Byte, writer: nat, index: nat)

  datatype Mode = Plain | Encrypted | Quarantine

  datatype StoreError = Overlap | Gap | Finalized | Io

  datatype Outcome = Stored(n: nat) | Failed(error: StoreError)

  /** The call an upload performs next. */
  datatype Pc =
    | Check                      // try_exists(final)
    | Size                       // metadata(staging), classify_offset
    | MkDirs                     // create_dir_all(parent)
    | Open                       // open the staging (or quarantine) file
    | Copy                       // io::copy, one chunk at a time
    | Flush
    | Link                       // hard_link(staging, final)
    | Unlink                     // remove_file(staging) after a successful link
    | Discard(error: StoreError) // remove_file(staging) before returning an error
    | Done(outcome: Outcome)
    | Crashed

  /** What an upload was asked to do. `output` is what reaches the disk: the input itself,
      or its ciphertext. */
  datatype Job = Job(mode: Mode, final: Path, start: nat, input: seq<Byte>, output: seq<Byte>) {
    predicate Normal() {
      mode != Quarantine
    }

    /** The file the bytes are written to. */
    function Target(): Path {
      if mode == Quarantine then final else StagingPath(final)
    }
  }

  datatype Upload = Upload(job: Job, pc: Pc, handle: nat, pos: nat, linked: bool) {
    predicate Active() {
      !pc.Done? && !pc.Crashed?
    }

    /** An open file, or a staged file about to be linked. */
    predicate Holding() {
      pc.Copy? || pc.Flush? || pc.Link?
    }
  }

  /** `ups`, `binder` and the `linked` marks are bookkeeping: which upload did what. A name is in
      `binder`, with the upload that linked it, from that link on until it is removed. */
  datatype State = State(
    names: map<Path, nat>, inodes: map<nat, seq<Cell>>, dirs: set<Path>, next: nat,
    ups: map<nat, Upload>, binder: map<Path, nat>)

  const EmptyArchive := State(map[], map[], {}, 0, map[], map[])

  /** `Step` performs the next call of upload `u`; with `ok` false the call fails. `k` is the
      length of the chunk copied, the size the system reports for a directory, or the number of
      directories a failing create_dir_all leaves behind. */
  datatype Action =
    | Begin(u: nat, job: Job)
    | Step(u: nat, ok: bool, k: nat)
    | Crash(u: nat)
    | Mkd(path: Path)
    | SweepFile(path: Path)
    | SweepDir(path: Path)

  function Content(s: State, i: nat): seq<Cell> {
    if i in s.inodes then s.inodes[i] else []
  }

  /** The cells stored under a name. */
  function File(s: State, p: Path): seq<Cell>
    requires p in s.names
  {
    Content(s, s.names[p])
  }

  predicate Exists(s: State, p: Path) {
    p in s.names || p in s.dirs
  }

  function ProperPrefixes(p: Path): set<Path> {
    set i | 0 <= i < |p| :: p[..i]
  }

  /** `p` with all its ancestors. */
  function Chain(p: Path): set<Path> {
    ProperPrefixes(p) + {p}
  }

  lemma ChainExactly(p: Path, q: Path)
    ensures q in ProperPrefixes(p) <==> q < p
    ensures q in Chain(p) <==> q <= p
  {
    if q <= p {
      assert q == p[..|q|];
      assert |q| == |p| ==> q == p;
    }
  }

  /** The first `k` ancestors of `p`, from the root down. */
  function FirstPrefixes(p: Path, k: nat): (r: set<Path>)
    ensures r <= ProperPrefixes(p)
  {
    set i | 0 <= i < |p| && i < k :: p[..i]
  }

  /** The names the backend can be asked to store: a capture never has a probe's name, a
      ciphertext always has an `.age` name and starts at 0, a probe lies in the quarantine. */
  predicate WfJob(j: Job) {
    && WfPath(j.final)
    && (j.mode == Quarantine <==> IsTestPath(j.final))
    && (j.mode != Encrypted ==> j.output == j.input)
    && (j.mode == Encrypted ==> j.start == 0 && IsAgeName(j.final))
    && (j.mode == Quarantine ==> |j.final| >= 2 && Last(Dir(j.final)) == QUARANTINE_DIR)
  }

  function NewUpload(job: Job): Upload {
    Upload(job, if job.mode == Quarantine then MkDirs else Check, 0, 0, false)
  }

  ghost predicate Enabled(s: State, a: Action) {
    match a
    case Begin(u, job) => u !in s.ups && WfJob(job)
    case Step(u, ok, k) =>
      && u in s.ups && s.ups[u].Active()
      && (s.ups[u].pc.Copy? && ok && s.ups[u].pos < |s.ups[u].job.output| ==>
            1 <= k <= |s.ups[u].job.output| - s.ups[u].pos)
    case Crash(u) => u in s.ups && s.ups[u].Active()
    case Mkd(_) => true
    case SweepFile(p) => p in s.names
    case SweepDir(p) => p in s.dirs && forall q :: Exists(s, q) ==> !(p < q)
  }

  function Goto(s: State, u: nat, pc: Pc): State
    requires u in s.ups
  {
    s.(ups := s.ups[u := s.ups[u].(pc := pc)])
  }

  function Fail(s: State, u: nat, e: StoreError): State
    requires u in s.ups
  {
    Goto(s, u, Done(Failed(e)))
  }

  function RemoveFile(s: State, p: Path): State {
    s.(names := s.names - {p}, binder := s.binder - {p})
  }

  function CreateDirs(s: State, ds: set<Path>): State {
    s.(dirs := s.dirs + ds)
  }

  /** A failing existence check is `?` in the plaintext store, unwrap_or(false) in the
      encrypted one. */
  function AfterCheck(x: Upload, ok: bool, present: bool): (r: Pc)
    ensures r.Size? || r.MkDirs? || r.Done?
    ensures r.Size? ==> x.job.mode != Encrypted && !present
  {
    if x.job.mode == Encrypted then
      if ok && present then Done(Failed(Finalized)) else MkDirs
    else if !ok then Done(Failed(Io))
    else if present then Done(Failed(Finalized))
    else Size
  }

  function ReportedSize(s: State, p: Path, dirSize: nat): nat {
    if p in s.names then |File(s, p)| else if p in s.dirs then dirSize else 0
  }

  function AfterSize(x: Upload, ok: bool, size: nat): (r: Pc)
    ensures r.MkDirs? || r.Done? || r.Discard?
    ensures r.MkDirs? ==> x.job.start == size
  {
    if !ok then Done(Failed(Io))
    else
      match ClassifyOffset(x.job.start, size)
      case Ok => MkDirs
      case Overlap => Discard(StoreError.Overlap)
      case Gap => Discard(StoreError.Gap)
  }

  /** create_dir_all of the parent. Where a file is among the ancestors it makes nothing; where a
      call fails, `k` of the ancestors are there. */
  function DoMkDirs(s: State, u: nat, ok: bool, k: nat): State
    requires u in s.ups
  {
    var final := s.ups[u].job.final;
    if ProperPrefixes(final) !! s.names.Keys then
      if ok then Goto(CreateDirs(s, ProperPrefixes(final)), u, Open)
      else Fail(CreateDirs(s, FirstPrefixes(final, k)), u, Io)
    else Fail(s, u, Io)
  }

  function DoOpen(s: State, u: nat, ok: bool): State
    requires u in s.ups
  {
    var x := s.ups[u];
    var p := x.job.Target();
    if !ok || p in s.dirs || Dir(p) !in s.dirs then Fail(s, u, Io)
    else
      var isNew := p !in s.names;
      var i := if isNew then s.next else s.names[p];
      var c := if isNew || x.job.mode != Plain then [] else Content(s, i);
      s.(names := s.names[p := i],
         inodes := s.inodes[i := c],
         next := if isNew then s.next + 1 else s.next,
         ups := s.ups[u := x.(pc := Copy, handle := i, pos := 0)])
  }

  function Cells(output: seq<Byte>, u: nat, from: nat, k: nat): (r: seq<Cell>)
    requires from + k <= |output|
  {
    seq(k, i requires 0 <= i < k => Cell(output[from + i], u, from + i))
  }

  /** A positioned write; a hole before the position reads as zeros. */
  function WriteAt(c: seq<Cell>, pos: nat, cells: seq<Cell>): (r: seq<Cell>) {
    var padded := if |c| < pos then c + seq(pos - |c|, _ => Cell(0, 0, 0)) else c;
    padded[..pos] + cells + (if |padded| <= pos + |cells| then [] else padded[pos + |cells|..])
  }

  /** A positioned write changes its own range and nothing else. */
  lemma WriteAtExactly(c: seq<Cell>, pos: nat, cells: seq<Cell>, i: nat)
    ensures |WriteAt(c, pos, cells)| == if |c| < pos + |cells| then pos + |cells| else |c|
    ensures i < |WriteAt(c, pos, cells)| ==>
              WriteAt(c, pos, cells)[i] == if pos <= i < pos + |cells| then cells[i - pos]
                                           else if i < |c| then c[i] else Cell(0, 0, 0)
  {
  }

  lemma WriteAtEnd(c: seq<Cell>, cells: seq<Cell>)
    ensures WriteAt(c, |c|, cells) == c + cells
  {
    assert c[..|c|] == c;
  }

  predicate HasChunk(x: Upload, k: nat) {
    x.pos < |x.job.output| && x.pos + k <= |x.job.output|
  }

  /** Only the plaintext store removes its staging file when the copy fails. */
  function AfterCopy(x: Upload, ok: bool): Pc {
    match x.job.mode
    case Plain => if ok then Flush else Discard(Io)
    case Encrypted => if ok then Link else Done(Failed(Io))
    case Quarantine => Done(if ok then Stored(|x.job.input|) else Failed(Io))
  }

  function DoWrite(s: State, u: nat, k: nat): State
    requires u in s.ups && HasChunk(s.ups[u], k)
  {
    var x := s.ups[u];
    var before := Content(s, x.handle);
    var cells := Cells(x.job.output, u, x.pos, k);
    s.(inodes := s.inodes[x.handle := if x.job.mode == Plain then before + cells else WriteAt(before, x.pos, cells)],
       ups := s.ups[u := x.(pos := x.pos + k)])
  }

  function DoLink(s: State, u: nat, ok: bool): State
    requires u in s.ups
  {
    var x := s.ups[u];
    var staging := StagingPath(x.job.final);
    if !ok || staging !in s.names then Goto(s, u, Discard(Io))
    else if Exists(s, x.job.final) then Goto(s, u, Discard(Finalized))
    else
      s.(names := s.names[x.job.final := s.names[staging]],
         ups := s.ups[u := x.(pc := Unlink, linked := true)],
         binder := s.binder[x.job.final := u])
  }

  /** remove_file whose own failure is ignored. */
  function DoRemoveStaging(s: State, u: nat, ok: bool, outcome: Outcome): State
    requires u in s.ups
  {
    var s' := if ok then RemoveFile(s, StagingPath(s.ups[u].job.final)) else s;
    Goto(s', u, Done(outcome))
  }

  function DoStep(s: State, u: nat, ok: bool, k: nat): State
    requires u in s.ups
  {
    match s.ups[u].pc
    case Check => Goto(s, u, AfterCheck(s.ups[u], ok, Exists(s, s.ups[u].job.final)))
    case Size => Goto(s, u, AfterSize(s.ups[u], ok, ReportedSize(s, StagingPath(s.ups[u].job.final), k)))
    case MkDirs => DoMkDirs(s, u, ok, k)
    case Open => DoOpen(s, u, ok)
    case Copy => if ok && HasChunk(s.ups[u], k) then DoWrite(s, u, k) else Goto(s, u, AfterCopy(s.ups[u], ok))
    case Flush => Goto(s, u, if ok then Link else Done(Failed(Io)))
    case Link => DoLink(s, u, ok)
    case Unlink => DoRemoveStaging(s, u, ok, Stored(|s.ups[u].job.input|))
    case Discard(e) => DoRemoveStaging(s, u, ok, Failed(e))
    case Done(_) => s
    case Crashed => s
  }

  function Apply(s: State, a: Action): State {
    match a
    case Begin(u, job) => s.(ups := s.ups[u := NewUpload(job)])
    case Step(u, ok, k) => if u in s.ups then DoStep(s, u, ok, k) else s
    case Crash(u) => if u in s.ups then Goto(s, u, Crashed) else s
    case Mkd(p) =>
      var ds := ProperPrefixes(p) + {p};
      if ds !! s.names.Keys then CreateDirs(s, ds) else s
    case SweepFile(p) => RemoveFile(s, p)
    case SweepDir(p) => s.(dirs := s.dirs - {p})
  }

  /** What the deployment guarantees about a run. */
  datatype Discipline = Discipline(
    oneWriter: bool,     // no two captures to the same name overlap
    plainNames: bool,    // no capture is itself named like a staging file
    checksWork: bool,    // the encrypted store's existence check never fails
    quietSweep: bool,    // the sweep leaves alone the staging name of an active upload
    plaintextOnly: bool) // no encrypted uploads

  ghost predicate BusyWith(s: State, p: Path) {
    exists u :: u in s.ups && s.ups[u].Active() && s.ups[u].job.Normal() && s.ups[u].job.final == p
  }

  ghost predicate BusyStaging(s: State, p: Path) {
    exists u :: u in s.ups && s.ups[u].Active() && s.ups[u].job.Normal() && StagingPath(s.ups[u].job.final) == p
  }

  ghost predicate Respects(d: Discipline, s: State, a: Action) {
    match a
    case Begin(_, job) =>
      job.Normal() ==>
        && (d.oneWriter ==> !BusyWith(s, job.final))
        && (d.plainNames ==> !IsStagingName(job.final))
        && (d.plaintextOnly ==> job.mode == Plain)
    case Step(u, ok, _) =>
      d.checksWork && u in s.ups && s.ups[u].job.mode == Encrypted && s.ups[u].pc.Check? ==> ok
    case SweepFile(p) => d.quietSweep ==> !BusyStaging(s, p)
    case SweepDir(p) => d.quietSweep ==> !BusyStaging(s, p)
    case _ => true
  }

  function Exec(s: State, actions: seq<Action>): State
    decreases |actions|
  {
    if actions == [] then s else Exec(Apply(s, actions[0]), actions[1..])
  }

  ghost predicate Valid(d: Discipline, s: State, actions: seq<Action>)
    decreases |actions|
  {
    actions != [] ==>
      Enabled(s, actions[0]) && Respects(d, s, actions[0]) && Valid(d, Apply(s, actions[0]), actions[1..])
  }

  lemma {:induction false} ExecAppend(d: Discipline, s: State, a: seq<Action>, b: seq<Action>)
    ensures Exec(s, a + b) == Exec(Exec(s, a), b)
    ensures Valid(d, s, a + b) <==> Valid(d, s, a) && Valid(d, Exec(s, a), b)
    decreases |a|
  {
    if a == [] {
      assert a + b == b;
    } else {
      assert (a + b)[1..] == a[1..] + b;
      ExecAppend(d, Apply(s, a[0]), a[1..], b);
    }
  }

  lemma ExecOne(s: State, a: Action)
    ensures Exec(s, [a]) == Apply(s, a)
  {
    assert [a][1..] == [];
  }

  lemma RunOne(d: Discipline, s: State, a: Action)
    ensures Exec(s, [a]) == Apply(s, a)
    ensures Valid(d, s, [a]) <==> Enabled(s, a) && Respects(d, s, a)
  {
    var t, rest := Apply(s, a), [a][1..];
    hide Apply, Enabled, Respects;
    assert rest == [];
    assert Exec(t, rest) == t && Valid(d, t, rest);
  }

  /** Extends a run by one action. */
  lemma ExecSnoc(d: Discipline, o: State, run: seq<Action>, a: Action)
    requires Valid(d, o, run)
    ensures Exec(o, run + [a]) == Apply(Exec(o, run), a)
    ensures Valid(d, o, run + [a]) <==> Enabled(Exec(o, run), a) && Respects(d, Exec(o, run), a)
  {
    RunOne(d, Exec(o, run), a);
    ExecAppend(d, o, run, [a]);
  }

  /** The actions of one upload, from its beginning on, and of no one else. */
  ghost predicate OwnRun(trace: seq<Action>, u: nat, job: Job) {
    && trace != [] && trace[0] == Begin(u, job)
    && forall i :: 1 <= i < |trace| ==> trace[i].Step? && trace[i].u == u
  }

  /** A name a capture can be stored under. */
  predicate FinalName(p: Path) {
    WfPath(p) && !IsTestPath(p)
  }

  /** One that cannot be confused with a staging name. */
  predicate CaptureName(p: Path) {
    FinalName(p) && !IsStagingName(p)
  }

  /** The name is bound, and by the link of an upload to it. */
  ghost predicate IsFinalized(s: State, F: Path) {
    F in s.names && F in s.binder
  }
}
